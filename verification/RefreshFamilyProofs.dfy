/** Every reachable state keeps the invariants of `RefreshFamilies`, and what follows from them. */
module RefreshFamilyProofs {
  import opened Wrappers
  import opened RefreshFamilies

  // ----- statements that only revoke -----

  ghost predicate OnlyRevokes(a: Rows, b: Rows) {
    && a.Keys == b.Keys
    && forall id | id in a :: b[id] == a[id].(revokedAt := b[id].revokedAt)
         && (a[id].revokedAt.Some? ==> b[id].revokedAt.Some?)
  }

  lemma RevokeOnlyRevokes(rows: Rows, ids: set<RowId>, now: int)
    ensures OnlyRevokes(rows, Revoke(rows, ids, now))
  {
  }

  lemma RevokingKeepsChain(a: Rows, b: Rows, family: FamilyId, c: seq<RowId>)
    requires OnlyRevokes(a, b) && IsChain(a, family, c)
    ensures IsChain(b, family, c)
  {
  }

  lemma RevokingKeepsChains(a: Rows, b: Rows, chains: map<FamilyId, seq<RowId>>)
    requires OnlyRevokes(a, b) && Chained(a, chains)
    ensures Chained(b, chains)
  {
    forall f | f in chains
      ensures IsChain(b, f, chains[f])
    {
      RevokingKeepsChain(a, b, f, chains[f]);
    }
  }

  lemma InheritedAt(cfg: Config, rows: Rows, rotatedAt: map<RowId, int>, chains: map<FamilyId, seq<RowId>>, f: FamilyId)
    requires Inherited(cfg, rows, rotatedAt, chains) && f in chains
    ensures InTable(rows, chains[f]) && InheritsAlong(cfg, rows, rotatedAt, chains[f])
  {
  }

  lemma ChainedAt(rows: Rows, chains: map<FamilyId, seq<RowId>>, f: FamilyId)
    requires Chained(rows, chains) && f in chains
    ensures IsChain(rows, f, chains[f])
  {
  }

  lemma RevokingKeepsInherited(cfg: Config, a: Rows, b: Rows, rotatedAt: map<RowId, int>,
                               chains: map<FamilyId, seq<RowId>>)
    requires OnlyRevokes(a, b) && Inherited(cfg, a, rotatedAt, chains)
    ensures Inherited(cfg, b, rotatedAt, chains)
  {
    forall f | f in chains
      ensures InTable(b, chains[f]) && InheritsAlong(cfg, b, rotatedAt, chains[f])
    {
      InheritedAt(cfg, a, rotatedAt, chains, f);
    }
  }

  lemma RevokingKeepsRows(a: Rows, b: Rows, family: FamilyId)
    requires OnlyRevokes(a, b) && HasRows(a, family)
    ensures HasRows(b, family)
  {
    var id :| id in a && a[id].family == family;
    assert id in b && b[id].family == family;
  }

  lemma RevokingKeepsDead(a: Rows, b: Rows, family: FamilyId)
    requires OnlyRevokes(a, b) && Dead(a, family)
    ensures Dead(b, family)
  {
    RevokingKeepsRows(a, b, family);
  }

  lemma RevokingKeepsWorker(a: Rows, b: Rows, k: Worker)
    requires OnlyRevokes(a, b) && WorkerOk(a, k)
    ensures WorkerOk(b, k)
  {
    match k
    case RefreshReuseRejected(family) => RevokingKeepsDead(a, b, family);
    case LogoutDone(families) =>
      forall f | f in families ensures Dead(b, f) { RevokingKeepsDead(a, b, f); }
    case RefreshReused(family) => RevokingKeepsRows(a, b, family);
    case RefreshAged(family) => RevokingKeepsRows(a, b, family);
    case LogoutRead(family) => RevokingKeepsRows(a, b, family);
    case _ =>
  }

  lemma SubsetSize<T>(a: set<T>, b: set<T>)
    requires a <= b
    ensures |a| <= |b|
  {
    assert b == a + (b - a);
  }

  lemma RevokingKeepsCap(cfg: Config, a: Rows, b: Rows)
    requires OnlyRevokes(a, b) && Capped(cfg, a)
    ensures Capped(cfg, b)
  {
    forall user ensures |LiveFamilies(b, user)| <= cfg.maxFamilies {
      forall f | f in LiveFamilies(b, user) ensures f in LiveFamilies(a, user) {
        var id :| id in b && b[id].user == user && b[id].revokedAt.None? && b[id].family == f;
        assert id in a && a[id].user == user && a[id].revokedAt.None? && a[id].family == f;
      }
      SubsetSize(LiveFamilies(b, user), LiveFamilies(a, user));
    }
  }

  lemma RevokingKeepsWorkers(s: Sys, w: WorkerId, rows: Rows, k: Worker)
    requires WorkersOk(s) && OnlyRevokes(s.rows, rows) && WorkerOk(rows, k) && !k.RefreshOk?
    ensures WorkersOk(s.(rows := rows, workers := s.workers[w := k]))
  {
    var s' := s.(rows := rows, workers := s.workers[w := k]);
    forall v | v in s'.workers ensures WorkerOk(rows, s'.workers[v]) {
      if v != w { RevokingKeepsWorker(s.rows, rows, s.workers[v]); }
    }
  }

  /** A worker moves on after a statement that revoked some rows, or none. */
  lemma RevokingStep(cfg: Config, s: Sys, w: WorkerId, rows: Rows, k: Worker)
    requires Inv(cfg, s) && OnlyRevokes(s.rows, rows) && WorkerOk(rows, k) && !k.RefreshOk?
    ensures Inv(cfg, s.(rows := rows, workers := s.workers[w := k]))
  {
    RevokingKeepsChains(s.rows, rows, s.chains);
    RevokingKeepsInherited(cfg, s.rows, rows, s.rotatedAt, s.chains);
    RevokingKeepsCap(cfg, s.rows, rows);
    RevokingKeepsWorkers(s, w, rows, k);
  }

  lemma RevokedFamilyIsDead(rows: Rows, family: FamilyId, now: int)
    requires HasRows(rows, family)
    ensures Dead(Revoke(rows, FamilyRows(rows, family), now), family)
  {
    var id :| id in rows && rows[id].family == family;
    assert id in Revoke(rows, FamilyRows(rows, family), now);
  }

  lemma RevokedUserIsDead(rows: Rows, user: UserId, chains: map<FamilyId, seq<RowId>>, now: int)
    requires Chained(rows, chains)
    ensures forall id | id in rows && rows[id].user == user ::
              Dead(Revoke(rows, UserRows(rows, user), now), rows[id].family)
  {
    var after := Revoke(rows, UserRows(rows, user), now);
    forall id | id in rows && rows[id].user == user
      ensures Dead(after, rows[id].family)
    {
      var c := chains[rows[id].family];
      ChainedAt(rows, chains, rows[id].family);
      assert id in c;
      forall other | other in after && after[other].family == rows[id].family
        ensures after[other].revokedAt.Some?
      {
        assert other in c;
        assert rows[other].user == rows[c[0]].user == user;
      }
      assert id in after && after[id].family == rows[id].family;
    }
  }

  // ----- the transactions that insert a row -----

  /** A row joins; old rows keep everything but revocation and replacement. */
  ghost predicate Joins(a: Rows, b: Rows, newId: RowId) {
    && newId !in a && b.Keys == a.Keys + {newId}
    && forall id | id in a ::
         && b[id] == a[id].(revokedAt := b[id].revokedAt, replacedBy := b[id].replacedBy)
         && (a[id].revokedAt.Some? ==> b[id].revokedAt.Some?)
  }

  /** ... and no row that was already replaced is replaced again. */
  ghost predicate Inserts(a: Rows, b: Rows, newId: RowId) {
    && Joins(a, b, newId)
    && forall id | id in a && a[id].replacedBy.Some? :: b[id].replacedBy == a[id].replacedBy
  }

  lemma InsertingKeepsRows(a: Rows, b: Rows, newId: RowId, family: FamilyId)
    requires Joins(a, b, newId) && HasRows(a, family)
    ensures HasRows(b, family)
  {
    var id :| id in a && a[id].family == family;
    assert id in b && b[id].family == family;
  }

  lemma InsertingKeepsDead(a: Rows, b: Rows, newId: RowId, family: FamilyId)
    requires Joins(a, b, newId) && Dead(a, family) && b[newId].family != family
    ensures Dead(b, family)
  {
    InsertingKeepsRows(a, b, newId, family);
  }

  lemma InsertingKeepsWorker(a: Rows, b: Rows, newId: RowId, k: Worker)
    requires Inserts(a, b, newId) && WorkerOk(a, k)
    requires !Dead(a, b[newId].family)
    ensures WorkerOk(b, k)
  {
    match k
    case RefreshReuseRejected(family) => InsertingKeepsDead(a, b, newId, family);
    case LogoutDone(families) =>
      forall f | f in families ensures Dead(b, f) { InsertingKeepsDead(a, b, newId, f); }
    case RefreshReused(family) => InsertingKeepsRows(a, b, newId, family);
    case RefreshAged(family) => InsertingKeepsRows(a, b, newId, family);
    case LogoutRead(family) => InsertingKeepsRows(a, b, newId, family);
    case _ =>
  }

  lemma LiveRowIsLast(rows: Rows, family: FamilyId, c: seq<RowId>, id: RowId)
    requires IsChain(rows, family, c) && Live(rows, id) && rows[id].family == family
    ensures c[|c| - 1] == id && rows[id].replacedBy.None?
  {
    assert id in c;
    forall k | 0 <= k < |c| - 1 ensures c[k] != id {
      var next := c[k + 1];
      assert rows[c[k]].replacedBy == Some(next);
    }
  }

  lemma RotationExtendsOwnChain(cfg: Config, rows: Rows, id: RowId, device: Option<Device>, newId: RowId,
                                newHash: TokenHash,
                                now: int, c: seq<RowId>)
    requires Live(rows, id) && newId !in rows && IsChain(rows, rows[id].family, c)
    ensures IsChain(Rotate(cfg, rows, id, device, newId, newHash, now), rows[id].family, c + [newId])
  {
    var f := rows[id].family;
    var after := Rotate(cfg, rows, id, device, newId, newHash, now);
    var d := c + [newId];
    LiveRowIsLast(rows, f, c, id);
    forall x | x in after && after[x].family == f ensures x in d {
      if x == newId { assert d[|c|] == x; } else { assert x in c; }
    }
    forall i, j | 0 <= i < j < |d| && j == i + 1
      ensures after[d[i]].replacedBy == Some(d[j]) && after[d[i]].revokedAt.Some?
    {
      if j == |c| {
        assert d[i] == id && d[j] == newId;
      } else {
        assert d[i] == c[i] && d[j] == c[j] && c[i] != id;
      }
    }
  }

  lemma RotationKeepsOtherChain(cfg: Config, rows: Rows, id: RowId, device: Option<Device>, newId: RowId,
                                newHash: TokenHash,
                                now: int, f: FamilyId, c: seq<RowId>)
    requires Live(rows, id) && newId !in rows && IsChain(rows, f, c) && f != rows[id].family
    ensures IsChain(Rotate(cfg, rows, id, device, newId, newHash, now), f, c)
  {
    var after := Rotate(cfg, rows, id, device, newId, newHash, now);
    forall i | 0 <= i < |c| ensures c[i] in after && after[c[i]] == rows[c[i]] {
      assert rows[c[i]].family == f;
    }
    forall x | x in after && after[x].family == f ensures x in c { assert x in rows && rows[x].family == f; }
    forall i, j | 0 <= i < j < |c| && j == i + 1 ensures after[c[i]].replacedBy == Some(c[j]) {
      assert rows[c[i]].replacedBy == Some(c[j]);
    }
  }

  lemma RotationExtendsChains(cfg: Config, s: Sys, id: RowId, device: Option<Device>, newId: RowId, newHash: TokenHash)
    requires Chained(s.rows, s.chains) && Live(s.rows, id) && FreshRow(s.rows, newId, newHash)
    ensures var f := s.rows[id].family;
            Chained(Rotate(cfg, s.rows, id, device, newId, newHash, s.clock),
                    s.chains[f := Chain(s.chains, f) + [newId]])
  {
    var f := s.rows[id].family;
    RotationExtendsOwnChain(cfg, s.rows, id, device, newId, newHash, s.clock, s.chains[f]);
    forall g | g in s.chains && g != f
      ensures IsChain(Rotate(cfg, s.rows, id, device, newId, newHash, s.clock), g, s.chains[g])
    {
      RotationKeepsOtherChain(cfg, s.rows, id, device, newId, newHash, s.clock, g, s.chains[g]);
    }
  }

  /** The successor takes over the device, and records a time at which the family was still young. */
  lemma RotationInheritsAlong(cfg: Config, rows: Rows, rotatedAt: map<RowId, int>, id: RowId, device: Option<Device>,
                              newId: RowId, newHash: TokenHash, now: int, c: seq<RowId>)
    requires Claimable(cfg, rows, id, now) && newId !in rows && IsChain(rows, rows[id].family, c)
    requires InheritsAlong(cfg, rows, rotatedAt, c)
    requires rows[id].device.Some? ==> device == rows[id].device
    ensures InTable(Rotate(cfg, rows, id, device, newId, newHash, now), c + [newId])
    ensures InheritsAlong(cfg, Rotate(cfg, rows, id, device, newId, newHash, now), rotatedAt[newId := now], c + [newId])
  {
    var after := Rotate(cfg, rows, id, device, newId, newHash, now);
    var d := c + [newId];
    LiveRowIsLast(rows, rows[id].family, c, id);
    assert newId !in c;
    forall i, j | 0 <= i < j < |d| && after[d[i]].device.Some? ensures after[d[j]].device == after[d[i]].device {
      assert d[i] == c[i] && rows[c[i]].device == after[d[i]].device;
      if j == |c| {
        assert rows[c[|c| - 1]].device == rows[c[i]].device;
      } else {
        assert d[j] == c[j];
      }
    }
    forall j | 1 <= j < |d|
      ensures d[j] in rotatedAt[newId := now]
      ensures rotatedAt[newId := now][d[j]] < after[d[j]].familyCreatedAt + cfg.maxAge
    {
      if j < |c| { assert d[j] == c[j] && c[j] != newId; }
    }
  }

  lemma InsertingKeepsInherited(cfg: Config, a: Rows, b: Rows, newId: RowId, rotatedAt: map<RowId, int>, now: int,
                                c: seq<RowId>)
    requires Inserts(a, b, newId)
    requires InTable(a, c)
    requires InheritsAlong(cfg, a, rotatedAt, c)
    ensures InTable(b, c)
    ensures InheritsAlong(cfg, b, rotatedAt, c) && InheritsAlong(cfg, b, rotatedAt[newId := now], c)
  {
    forall i | 0 <= i < |c| ensures c[i] in b && b[c[i]].device == a[c[i]].device && c[i] != newId {}
  }

  lemma RotationKeepsInherited(cfg: Config, s: Sys, id: RowId, device: Option<Device>, newId: RowId, newHash: TokenHash)
    requires Chained(s.rows, s.chains) && Inherited(cfg, s.rows, s.rotatedAt, s.chains)
    requires Claimable(cfg, s.rows, id, s.clock) && FreshRow(s.rows, newId, newHash)
    requires s.rows[id].device.Some? ==> device == s.rows[id].device
    ensures var f := s.rows[id].family;
            Inherited(cfg, Rotate(cfg, s.rows, id, device, newId, newHash, s.clock), s.rotatedAt[newId := s.clock],
                      s.chains[f := Chain(s.chains, f) + [newId]])
  {
    var f := s.rows[id].family;
    var after := Rotate(cfg, s.rows, id, device, newId, newHash, s.clock);
    LiveRowIsLast(s.rows, f, s.chains[f], id);
    assert Inserts(s.rows, after, newId);
    RotationInheritsAlong(cfg, s.rows, s.rotatedAt, id, device, newId, newHash, s.clock, s.chains[f]);
    forall g | g in s.chains && g != f
      ensures InTable(after, s.chains[g])
              && InheritsAlong(cfg, after, s.rotatedAt[newId := s.clock], s.chains[g])
    {
      InheritedAt(cfg, s.rows, s.rotatedAt, s.chains, g);
      InsertingKeepsInherited(cfg, s.rows, after, newId, s.rotatedAt, s.clock, s.chains[g]);
    }
  }

  lemma RotationKeepsCap(cfg: Config, s: Sys, id: RowId, device: Option<Device>, newId: RowId, newHash: TokenHash)
    requires Capped(cfg, s.rows) && Live(s.rows, id) && FreshRow(s.rows, newId, newHash)
    ensures Capped(cfg, Rotate(cfg, s.rows, id, device, newId, newHash, s.clock))
  {
    var rows := Rotate(cfg, s.rows, id, device, newId, newHash, s.clock);
    forall user ensures |LiveFamilies(rows, user)| <= cfg.maxFamilies {
      forall f | f in LiveFamilies(rows, user) ensures f in LiveFamilies(s.rows, user) {
        var x :| x in rows && rows[x].user == user && rows[x].revokedAt.None? && rows[x].family == f;
        var y := if x == newId then id else x;
        assert y in s.rows && s.rows[y].user == user && s.rows[y].revokedAt.None? && s.rows[y].family == f;
      }
      SubsetSize(LiveFamilies(rows, user), LiveFamilies(s.rows, user));
    }
  }

  lemma InsertingKeepsWorkers(s: Sys, w: WorkerId, newId: RowId, s': Sys)
    requires WorkersOk(s) && w in s.workers && w in s'.workers && s'.workers == s.workers[w := s'.workers[w]]
    requires Inserts(s.rows, s'.rows, newId) && !Dead(s.rows, s'.rows[newId].family)
    requires WorkerOk(s'.rows, s'.workers[w]) && (s'.workers[w].RefreshOk? ==> s'.workers[w].newId == newId)
    ensures WorkersOk(s')
  {
    forall v | v in s'.workers ensures WorkerOk(s'.rows, s'.workers[v]) {
      if v != w { InsertingKeepsWorker(s.rows, s'.rows, newId, s.workers[v]); }
    }
  }

  lemma RotationJoins(cfg: Config, rows: Rows, id: RowId, device: Option<Device>, newId: RowId, newHash: TokenHash,
                      now: int)
    requires Live(rows, id) && rows[id].replacedBy.None? && FreshRow(rows, newId, newHash)
    ensures Inserts(rows, Rotate(cfg, rows, id, device, newId, newHash, now), newId)
    ensures UniqueTokens(rows) ==> UniqueTokens(Rotate(cfg, rows, id, device, newId, newHash, now))
  {
  }

  lemma RotationStep(cfg: Config, s: Sys, w: WorkerId, c: Choice, s': Sys)
    requires cfg.Valid() && Inv(cfg, s) && w in s.workers && s.workers[w].RefreshClaim?
    requires !c.abort && Claimable(cfg, s.rows, s.workers[w].id, s.clock)
    requires WorkerStep(cfg, s, w, c, s')
    ensures Inv(cfg, s')
  {
    var RefreshClaim(id, snap, device) := s.workers[w];
    assert WorkerOk(s.rows, s.workers[w]);
    LiveRowIsLast(s.rows, s.rows[id].family, s.chains[s.rows[id].family], id);
    RotationExtendsChains(cfg, s, id, device, c.newId, c.newHash);
    RotationKeepsInherited(cfg, s, id, device, c.newId, c.newHash);
    RotationKeepsCap(cfg, s, id, device, c.newId, c.newHash);
    RotationJoins(cfg, s.rows, id, device, c.newId, c.newHash, s.clock);
    InsertingKeepsWorkers(s, w, c.newId, s');
  }

  // ----- sign-in -----

  /** The table just before the new row is inserted. */
  function Roomy(rows: Rows, user: UserId, device: Option<Device>, evicted: set<FamilyId>, now: int): Rows {
    var cleared := Revoke(rows, UserFamilyRows(rows, user, DeviceFamilies(rows, user, device)), now);
    Revoke(cleared, UserFamilyRows(cleared, user, evicted), now)
  }

  lemma RoomyOnlyRevokes(rows: Rows, user: UserId, device: Option<Device>, evicted: set<FamilyId>, now: int)
    ensures OnlyRevokes(rows, Roomy(rows, user, device, evicted, now))
  {
  }

  /** Evicting makes room for exactly one more family of this user. */
  lemma EvictionMakesRoom(cfg: Config, cleared: Rows, user: UserId, evicted: set<FamilyId>, now: int)
    requires cfg.Valid() && EvictsOldest(cfg, cleared, user, evicted)
    ensures var roomy := Revoke(cleared, UserFamilyRows(cleared, user, evicted), now);
            && LiveFamilies(roomy, user) == LiveFamilies(cleared, user) - evicted
            && |LiveFamilies(roomy, user)| <= cfg.maxFamilies - 1
            && (evicted != {} ==> |LiveFamilies(roomy, user)| == cfg.maxFamilies - 1)
  {
    var roomy := Revoke(cleared, UserFamilyRows(cleared, user, evicted), now);
    forall f ensures f in LiveFamilies(roomy, user) <==> f in LiveFamilies(cleared, user) - evicted {
      if f in LiveFamilies(roomy, user) {
        var x :| x in roomy && roomy[x].user == user && roomy[x].revokedAt.None? && roomy[x].family == f;
        assert x in cleared && cleared[x].user == user && cleared[x].revokedAt.None? && cleared[x].family == f;
      }
      if f in LiveFamilies(cleared, user) - evicted {
        var x :| x in cleared && cleared[x].user == user && cleared[x].revokedAt.None? && cleared[x].family == f;
        assert x in roomy && roomy[x].user == user && roomy[x].revokedAt.None? && roomy[x].family == f;
      }
    }
    assert LiveFamilies(roomy, user) == LiveFamilies(cleared, user) - evicted;
  }

  lemma InsertedFamilyCounts(cfg: Config, roomy: Rows, newId: RowId, row: Row)
    requires newId !in roomy && Capped(cfg, roomy)
    requires |LiveFamilies(roomy, row.user)| <= cfg.maxFamilies - 1
    ensures Capped(cfg, roomy[newId := row])
  {
    var rows := roomy[newId := row];
    forall user ensures |LiveFamilies(rows, user)| <= cfg.maxFamilies {
      var extra := if user == row.user then {row.family} else {};
      forall f | f in LiveFamilies(rows, user) ensures f in LiveFamilies(roomy, user) + extra {
        var x :| x in rows && rows[x].user == user && rows[x].revokedAt.None? && rows[x].family == f;
        if x != newId {
          assert x in roomy && roomy[x].user == user && roomy[x].revokedAt.None? && roomy[x].family == f;
        }
      }
      SubsetSize(LiveFamilies(rows, user), LiveFamilies(roomy, user) + extra);
    }
  }

  lemma InsertingKeepsOtherChain(rows: Rows, newId: RowId, row: Row, f: FamilyId, c: seq<RowId>)
    requires IsChain(rows, f, c) && newId !in rows && row.family != f
    ensures IsChain(rows[newId := row], f, c)
  {
    var after := rows[newId := row];
    forall i | 0 <= i < |c| ensures c[i] in after && rows[c[i]] == after[c[i]] {
      assert c[i] in rows;
    }
    SameRowsSameChain(rows, after, f, c);
  }

  lemma SameRowsSameChain(rows: Rows, after: Rows, f: FamilyId, c: seq<RowId>)
    requires IsChain(rows, f, c) && (forall i | 0 <= i < |c| :: c[i] in after && rows[c[i]] == after[c[i]])
    requires forall x | x in after && after[x].family == f :: x in rows && rows[x].family == f
    ensures IsChain(after, f, c)
  {
    forall i, j | 0 <= i < j < |c| && j == i + 1
      ensures after[c[i]].replacedBy == Some(c[j]) && after[c[i]].revokedAt.Some?
    {
      assert rows[c[i]] == after[c[i]] && rows[c[i]].replacedBy == Some(c[j]);
    }
    forall i | 0 <= i < |c|
      ensures after[c[i]].user == after[c[0]].user && after[c[i]].familyCreatedAt == after[c[0]].familyCreatedAt
    {
      assert rows[c[i]] == after[c[i]] && rows[c[0]] == after[c[0]];
    }
    assert rows[c[|c| - 1]] == after[c[|c| - 1]];
  }

  lemma NewFamilyChain(rows: Rows, chains: map<FamilyId, seq<RowId>>, newId: RowId, row: Row)
    requires Chained(rows, chains) && newId !in rows && row.family !in chains && row.replacedBy.None?
    ensures Chained(rows[newId := row], chains[row.family := [newId]])
  {
    var after, longer := rows[newId := row], chains[row.family := [newId]];
    assert IsChain(after, row.family, [newId]);
    forall f | f in longer ensures IsChain(after, f, longer[f]) {
      if f != row.family { InsertingKeepsOtherChain(rows, newId, row, f, chains[f]); }
    }
  }

  lemma NewFamilyInherits(cfg: Config, a: Rows, b: Rows, newId: RowId, rotatedAt: map<RowId, int>,
                          chains: map<FamilyId, seq<RowId>>, family: FamilyId)
    requires Inserts(a, b, newId) && Inherited(cfg, a, rotatedAt, chains)
    ensures Inherited(cfg, b, rotatedAt, chains[family := [newId]])
  {
    var after := chains[family := [newId]];
    forall f | f in after
      ensures InTable(b, after[f]) && InheritsAlong(cfg, b, rotatedAt, after[f])
    {
      if f != family {
        InheritedAt(cfg, a, rotatedAt, chains, f);
        InsertingKeepsInherited(cfg, a, b, newId, rotatedAt, 0, chains[f]);
      }
    }
  }

  lemma SignInKeepsChains(cfg: Config, s: Sys, user: UserId, device: Option<Device>, evicted: set<FamilyId>,
                          family: FamilyId, createdAt: int, newId: RowId, newHash: TokenHash)
    requires Chained(s.rows, s.chains) && newId !in s.rows && family !in s.chains
    ensures Chained(SignIn(cfg, s.rows, user, device, evicted, family, createdAt, newId, newHash, s.clock),
                    s.chains[family := [newId]])
  {
    var roomy := Roomy(s.rows, user, device, evicted, s.clock);
    RoomyOnlyRevokes(s.rows, user, device, evicted, s.clock);
    RevokingKeepsChains(s.rows, roomy, s.chains);
    NewFamilyChain(roomy, s.chains, newId,
                   Row(user, newHash, family, createdAt, device, s.clock + cfg.tokenLifetime, None, None));
  }

  lemma SignInKeepsCap(cfg: Config, rows: Rows, user: UserId, device: Option<Device>, evicted: set<FamilyId>,
                       family: FamilyId, createdAt: int, newId: RowId, newHash: TokenHash, now: int)
    requires cfg.Valid() && Capped(cfg, rows) && newId !in rows
    requires EvictsOldest(cfg, Cleared(rows, user, device, now), user, evicted)
    ensures Capped(cfg, SignIn(cfg, rows, user, device, evicted, family, createdAt, newId, newHash, now))
  {
    var roomy := Roomy(rows, user, device, evicted, now);
    RoomyOnlyRevokes(rows, user, device, evicted, now);
    RevokingKeepsCap(cfg, rows, roomy);
    EvictionMakesRoom(cfg, Revoke(rows, UserFamilyRows(rows, user, DeviceFamilies(rows, user, device)), now), user,
                      evicted, now);
    InsertedFamilyCounts(cfg, roomy, newId,
                         Row(user, newHash, family, createdAt, device, now + cfg.tokenLifetime, None, None));
  }

  lemma SignInJoins(cfg: Config, rows: Rows, user: UserId, device: Option<Device>, evicted: set<FamilyId>,
                    family: FamilyId, createdAt: int, newId: RowId, newHash: TokenHash, now: int)
    requires newId !in rows
    ensures Inserts(rows, SignIn(cfg, rows, user, device, evicted, family, createdAt, newId, newHash, now), newId)
  {
  }

  lemma SignInKeepsUnique(cfg: Config, rows: Rows, user: UserId, device: Option<Device>, evicted: set<FamilyId>,
                          family: FamilyId, createdAt: int, newId: RowId, newHash: TokenHash, now: int)
    requires UniqueTokens(rows) && FreshRow(rows, newId, newHash)
    ensures UniqueTokens(SignIn(cfg, rows, user, device, evicted, family, createdAt, newId, newHash, now))
  {
  }

  lemma SignInStep(cfg: Config, s: Sys, w: WorkerId, c: Choice, s': Sys)
    requires cfg.Valid() && Inv(cfg, s) && w in s.workers && s.workers[w].SignInStart? && !c.abort
    requires WorkerStep(cfg, s, w, c, s')
    ensures Inv(cfg, s')
  {
    var SignInStart(user, device, family, createdAt) := s.workers[w];
    SignInKeepsChains(cfg, s, user, device, c.evicted, family, createdAt, c.newId, c.newHash);
    SignInKeepsCap(cfg, s.rows, user, device, c.evicted, family, createdAt, c.newId, c.newHash, s.clock);
    SignInJoins(cfg, s.rows, user, device, c.evicted, family, createdAt, c.newId, c.newHash, s.clock);
    SignInKeepsUnique(cfg, s.rows, user, device, c.evicted, family, createdAt, c.newId, c.newHash, s.clock);
    NewFamilyInherits(cfg, s.rows, s'.rows, c.newId, s.rotatedAt, s.chains, family);
    InsertingKeepsWorkers(s, w, c.newId, s');
  }

  // ----- every step -----

  lemma QuietlyOnlyRevokes(cfg: Config, rows: Rows, clock: int, k: Worker, c: Choice)
    requires !HasReturned(k)
    ensures OnlyRevokes(rows, Quietly(cfg, rows, clock, k, c).0) && !Quietly(cfg, rows, clock, k, c).1.RefreshOk?
  {
  }

  lemma QuietlyKeepsWorker(cfg: Config, s: Sys, k: Worker, c: Choice)
    requires Chained(s.rows, s.chains) && WorkerOk(s.rows, k) && !HasReturned(k) && !Commits(cfg, s.rows, s.clock, k, c)
    ensures var (rows, next) := Quietly(cfg, s.rows, s.clock, k, c); WorkerOk(rows, next)
  {
    if k.RefreshReused? || k.LogoutRead? {
      RevokedFamilyIsDead(s.rows, k.family, s.clock);
    } else if k.LogoutAllStart? {
      RevokedUserIsDead(s.rows, k.user, s.chains, s.clock);
    } else if k.RefreshRead? || k.RefreshLost? {
      assert HasRows(s.rows, k.snap.family) by { assert s.rows[k.id].family == k.snap.family; }
    } else if k.LogoutStart? && c.found.Some? && c.found.value in s.rows {
      assert HasRows(s.rows, s.rows[c.found.value].family);
    }
  }

  lemma WorkerStepKeepsInv(cfg: Config, s: Sys, w: WorkerId, c: Choice, s': Sys)
    requires cfg.Valid() && Inv(cfg, s) && WorkerStep(cfg, s, w, c, s')
    ensures Inv(cfg, s')
  {
    var k := s.workers[w];
    if !Commits(cfg, s.rows, s.clock, k, c) {
      QuietlyOnlyRevokes(cfg, s.rows, s.clock, k, c);
      QuietlyKeepsWorker(cfg, s, k, c);
      var (rows, next) := Quietly(cfg, s.rows, s.clock, k, c);
      RevokingStep(cfg, s, w, rows, next);
    } else if k.SignInStart? {
      SignInStep(cfg, s, w, c, s');
    } else {
      RotationStep(cfg, s, w, c, s');
    }
  }

  lemma StepKeepsInv(cfg: Config, s: Sys, e: Event, s': Sys)
    requires cfg.Valid() && Inv(cfg, s) && Step(cfg, s, e, s')
    ensures Inv(cfg, s')
  {
    match e
    case Tick(now) =>
    case Spawn(w, call) =>
    case Crash(w) =>
    case Advance(w, c) => WorkerStepKeepsInv(cfg, s, w, c, s');
  }

  lemma {:induction false} RunKeepsInv(cfg: Config, run: seq<Sys>, i: nat)
    requires cfg.Valid() && IsRun(cfg, run) && i < |run|
    ensures Inv(cfg, run[i])
  {
    if i == 0 {
      assert Capped(cfg, run[0].rows) by {
        forall user ensures LiveFamilies(run[0].rows, user) == {} {}
      }
    } else {
      RunKeepsInv(cfg, run, i - 1);
      assert TakesStep(cfg, run, i - 1);
      var e :| Step(cfg, run[i - 1], e, run[i]);
      StepKeepsInv(cfg, run[i - 1], e, run[i]);
    }
  }
}
