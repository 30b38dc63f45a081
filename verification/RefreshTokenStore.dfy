/**
 The refresh-token table as the auth service updates it in place: statement by statement,
 with the loops that revoke families one at a time. Each transaction is proved to have
 exactly the effect that `RefreshFamilies` gives one atomic step.
 */
module RefreshTokenStore {
  import opened Wrappers
  import opened RefreshFamilies
  import opened RefreshFamilyProofs

  // ----- ordering the groups -----

  predicate OldestFirst(groups: seq<Group>) {
    forall i, j | 0 <= i < j < |groups| :: groups[i].oldest <= groups[j].oldest
  }

  /** Puts `g` after every group that is not newer, as a stable sort does. */
  function InsertGroup(g: Group, sorted: seq<Group>): (r: seq<Group>)
    ensures multiset(r) == multiset(sorted) + multiset{g}
  {
    if sorted == [] then [g]
    else if sorted[0].oldest <= g.oldest then
      assert sorted == [sorted[0]] + sorted[1..];
      [sorted[0]] + InsertGroup(g, sorted[1..])
    else
      [g] + sorted
  }

  function SortByAge(groups: seq<Group>): (r: seq<Group>)
    ensures multiset(r) == multiset(groups)
  {
    if groups == [] then []
    else
      var last := |groups| - 1;
      assert groups == groups[..last] + [groups[last]];
      InsertGroup(groups[last], SortByAge(groups[..last]))
  }

  lemma InsertedIsMember(g: Group, sorted: seq<Group>, i: nat)
    requires i < |InsertGroup(g, sorted)|
    ensures InsertGroup(g, sorted)[i] == g || InsertGroup(g, sorted)[i] in sorted
  {
    assert InsertGroup(g, sorted)[i] in multiset(InsertGroup(g, sorted));
  }

  lemma FirstStaysFirst(first: Group, rest: seq<Group>)
    requires OldestFirst(rest) && forall i | 0 <= i < |rest| :: first.oldest <= rest[i].oldest
    ensures OldestFirst([first] + rest)
  {
  }

  lemma {:induction false} InsertKeepsOrder(g: Group, sorted: seq<Group>)
    requires OldestFirst(sorted)
    ensures OldestFirst(InsertGroup(g, sorted))
  {
    if sorted == [] || sorted[0].oldest > g.oldest {
    } else {
      var rest := InsertGroup(g, sorted[1..]);
      InsertKeepsOrder(g, sorted[1..]);
      forall i | 0 <= i < |rest| ensures sorted[0].oldest <= rest[i].oldest { InsertedIsMember(g, sorted[1..], i); }
      FirstStaysFirst(sorted[0], rest);
    }
  }

  lemma {:induction false} SortedByAge(groups: seq<Group>)
    ensures OldestFirst(SortByAge(groups))
  {
    if groups == [] {
    } else {
      SortedByAge(groups[..|groups| - 1]);
      InsertKeepsOrder(groups[|groups| - 1], SortByAge(groups[..|groups| - 1]));
    }
  }

  lemma FamiliesOneMore(front: seq<Group>, g: Group)
    ensures FamiliesOf(front + [g]) == FamiliesOf(front) + {g.family}
  {
    var groups := front + [g];
    forall f | f in FamiliesOf(groups) ensures f in FamiliesOf(front) + {g.family} {
      var i :| 0 <= i < |groups| && groups[i].family == f;
      if i < |front| { assert front[i].family == f; }
    }
    forall f | f in FamiliesOf(front) ensures f in FamiliesOf(groups) {
      var i :| 0 <= i < |front| && front[i].family == f;
      assert groups[i].family == f;
    }
    assert groups[|front|].family == g.family;
  }

  lemma {:induction false} DistinctFamilies(groups: seq<Group>)
    requires forall i, j | 0 <= i < j < |groups| :: groups[i].family != groups[j].family
    ensures |FamiliesOf(groups)| == |groups|
  {
    if groups == [] {
      assert FamiliesOf(groups) == {};
    } else {
      var front, last := groups[..|groups| - 1], groups[|groups| - 1];
      DistinctFamilies(front);
      assert groups == front + [last];
      FamiliesOneMore(front, last);
      assert last.family !in FamiliesOf(front);
    }
  }

  lemma SortedIsGrouping(groups: seq<Group>, sorted: seq<Group>, rows: Rows, user: UserId)
    requires IsGrouping(groups, rows, user) && multiset(sorted) == multiset(groups)
    ensures IsGrouping(sorted, rows, user)
  {
    forall g ensures g in sorted <==> g in groups { assert g in multiset(sorted) <==> g in multiset(groups); }
    forall i, j | 0 <= i < j < |sorted| ensures sorted[i].family != sorted[j].family {
      if sorted[i].family == sorted[j].family {
        assert sorted[i] in groups && sorted[j] in groups;
        assert sorted[i] == sorted[j];
        TwiceInMultiset(sorted, i, j);
        OnceInMultiset(groups, sorted[i]);
      }
    }
    forall f ensures f in FamiliesOf(groups) <==> f in FamiliesOf(sorted) {
      if f in FamiliesOf(groups) {
        var i :| 0 <= i < |groups| && groups[i].family == f;
        assert groups[i] in sorted;
      }
      if f in FamiliesOf(sorted) {
        var i :| 0 <= i < |sorted| && sorted[i].family == f;
        assert sorted[i] in groups;
      }
    }
    forall i | 0 <= i < |sorted| ensures IsOldest(rows, user, sorted[i]) { assert sorted[i] in groups; }
  }

  lemma TwiceInMultiset(s: seq<Group>, i: nat, j: nat)
    requires i < j < |s| && s[i] == s[j]
    ensures multiset(s)[s[i]] >= 2
  {
    assert s == s[..j] + s[j..];
    assert s[i] in s[..j] && s[j] in s[j..];
    assert multiset(s) == multiset(s[..j]) + multiset(s[j..]);
  }

  lemma {:induction false} OnceInMultiset(groups: seq<Group>, g: Group)
    requires forall i, j | 0 <= i < j < |groups| :: groups[i].family != groups[j].family
    ensures multiset(groups)[g] <= 1
  {
    if groups == [] {
    } else {
      assert groups == [groups[0]] + groups[1..];
      OnceInMultiset(groups[1..], g);
      if groups[0] == g {
        assert forall x | x in groups[1..] :: x.family != g.family;
        assert g !in multiset(groups[1..]);
      }
    }
  }

  /** The first groups in age order are a set that the cap rule may evict. */
  lemma OldestPrefixEvicts(cfg: Config, sorted: seq<Group>, rows: Rows, user: UserId, n: nat)
    requires cfg.Valid() && IsGrouping(sorted, rows, user) && OldestFirst(sorted)
    requires n == Overflow(cfg, |sorted|)
    ensures n <= |sorted| && EvictsOldest(cfg, rows, user, FamiliesOf(sorted[..n]))
  {
    DistinctFamilies(sorted);
    DistinctFamilies(sorted[..n]);
    var evicted := FamiliesOf(sorted[..n]);
    assert evicted <= LiveFamilies(rows, user) by {
      forall f | f in evicted ensures f in LiveFamilies(rows, user) {
        var i :| 0 <= i < n && sorted[..n][i].family == f;
        assert sorted[i].family == f;
      }
    }
    forall e, k, te, tk | e in evicted && k in LiveFamilies(rows, user) - evicted
        && IsOldest(rows, user, Group(e, te)) && IsOldest(rows, user, Group(k, tk))
      ensures te <= tk
    {
      EarlierIsOlder(sorted, rows, user, n, Group(e, te), Group(k, tk));
    }
  }

  lemma EarlierIsOlder(sorted: seq<Group>, rows: Rows, user: UserId, n: nat, e: Group, k: Group)
    requires IsGrouping(sorted, rows, user) && OldestFirst(sorted) && n <= |sorted|
    requires e.family in FamiliesOf(sorted[..n])
    requires k.family in FamiliesOf(sorted) && k.family !in FamiliesOf(sorted[..n])
    requires IsOldest(rows, user, e) && IsOldest(rows, user, k)
    ensures e.oldest <= k.oldest
  {
    var i :| 0 <= i < n && sorted[..n][i].family == e.family;
    var j :| 0 <= j < |sorted| && sorted[j].family == k.family;
    assert forall m | 0 <= m < n :: sorted[..n][m] == sorted[m] && sorted[m].family in FamiliesOf(sorted[..n]);
    OneOldest(rows, user, sorted[i], e);
    OneOldest(rows, user, sorted[j], k);
  }

  lemma OneOldest(rows: Rows, user: UserId, a: Group, b: Group)
    requires IsOldest(rows, user, a) && IsOldest(rows, user, b) && a.family == b.family
    ensures a == b
  {
  }

  lemma OneMoreFamily(groups: seq<Group>, i: nat)
    requires i < |groups|
    ensures FamiliesOf(groups[..i + 1]) == FamiliesOf(groups[..i]) + {groups[i].family}
  {
    forall x | x in FamiliesOf(groups[..i]) ensures x in FamiliesOf(groups[..i + 1]) {
      var j :| 0 <= j < i && groups[..i][j].family == x;
      assert groups[..i + 1][j].family == x;
    }
    assert groups[..i + 1][i].family == groups[i].family;
    forall x | x in FamiliesOf(groups[..i + 1]) && x != groups[i].family ensures x in FamiliesOf(groups[..i]) {
      var j :| 0 <= j < i + 1 && groups[..i + 1][j].family == x;
      assert groups[..i][j].family == x;
    }
  }

  lemma RevokeMore(rows: Rows, user: UserId, done: set<FamilyId>, f: FamilyId, now: int)
    ensures var half := Revoke(rows, UserFamilyRows(rows, user, done), now);
            Revoke(half, UserFamilyRows(half, user, {f}), now)
                == Revoke(rows, UserFamilyRows(rows, user, done + {f}), now)
  {
  }

  lemma RevokeNothing(rows: Rows, user: UserId, now: int)
    ensures Revoke(rows, UserFamilyRows(rows, user, {}), now) == rows
  {
  }

  // ----- the table -----

  class RefreshTokenTable {
    var rows: Rows

    constructor ()
      ensures rows == map[]
    {
      rows := map[];
    }

    /** `groupBy familyId` with the minimum `familyCreatedAt`, over the user's unrevoked rows. */
    method GroupLiveFamilies(user: UserId) returns (groups: seq<Group>)
      ensures IsGrouping(groups, rows, user)
    {
      groups := [];
      var todo := LiveFamilies(rows, user);
      while todo != {}
        invariant todo <= LiveFamilies(rows, user)
        invariant FamiliesOf(groups) == LiveFamilies(rows, user) - todo
        invariant forall i, j | 0 <= i < j < |groups| :: groups[i].family != groups[j].family
        invariant forall i | 0 <= i < |groups| :: IsOldest(rows, user, groups[i])
        decreases todo
      {
        var f :| f in todo;
        var oldest := OldestIn(user, f);
        ghost var before := groups;
        groups := groups + [Group(f, oldest)];
        todo := todo - {f};
        OneMoreFamily(groups, |before|);
        assert groups[..|before|] == before && groups[..|before| + 1] == groups;
        forall i | 0 <= i < |before| ensures before[i].family != f { assert before[i].family in FamiliesOf(before); }
      }
    }

    method OldestIn(user: UserId, f: FamilyId) returns (oldest: int)
      requires f in LiveFamilies(rows, user)
      ensures IsOldest(rows, user, Group(f, oldest))
    {
      var ids := set id | id in rows && rows[id].user == user && rows[id].revokedAt.None? && rows[id].family == f;
      ghost var all := ids;
      var first :| first in rows && rows[first].user == user && rows[first].revokedAt.None? && rows[first].family == f;
      oldest := rows[first].familyCreatedAt;
      while ids != {}
        invariant ids <= all
        invariant exists id :: id in all && rows[id].familyCreatedAt == oldest
        invariant forall id | id in all - ids :: oldest <= rows[id].familyCreatedAt
        decreases ids
      {
        var id :| id in ids;
        if rows[id].familyCreatedAt < oldest { oldest := rows[id].familyCreatedAt; }
        ids := ids - {id};
      }
    }

    /** Signing in again on a device replaces that device's families, one by one. */
    method RevokeDeviceFamilies(user: UserId, device: Option<Device>, now: int)
      modifies this
      ensures rows == Revoke(old(rows), UserFamilyRows(old(rows), user, DeviceFamilies(old(rows), user, device)), now)
    {
      ghost var start := rows;
      var doomed := DeviceFamilies(rows, user, device);
      var todo := doomed;
      RevokeNothing(start, user, now);
      assert doomed - todo == {};
      while todo != {}
        invariant todo <= doomed
        invariant rows == Revoke(start, UserFamilyRows(start, user, doomed - todo), now)
        decreases todo
      {
        var f :| f in todo;
        RevokeMore(start, user, doomed - todo, f, now);
        rows := Revoke(rows, UserFamilyRows(rows, user, {f}), now);
        assert doomed - todo + {f} == doomed - (todo - {f});
        todo := todo - {f};
      }
      assert doomed - todo == doomed;
    }

    /** Revokes the oldest families that leave no room for one more, and returns them. */
    method EvictOverflow(cfg: Config, user: UserId, now: int) returns (evicted: set<FamilyId>)
      requires cfg.Valid()
      modifies this
      ensures rows == Revoke(old(rows), UserFamilyRows(old(rows), user, evicted), now)
      ensures EvictsOldest(cfg, old(rows), user, evicted)
    {
      ghost var start := rows;
      var liveFamilies := GroupLiveFamilies(user);
      var oldestFirst := SortByAge(liveFamilies);
      SortedByAge(liveFamilies);
      SortedIsGrouping(liveFamilies, oldestFirst, rows, user);
      var overflow := Overflow(cfg, |oldestFirst|);
      OldestPrefixEvicts(cfg, oldestFirst, start, user, overflow);
      evicted := {};
      RevokeNothing(start, user, now);
      for i := 0 to overflow
        invariant evicted == FamiliesOf(oldestFirst[..i])
        invariant rows == Revoke(start, UserFamilyRows(start, user, evicted), now)
      {
        var f := oldestFirst[i].family;
        RevokeMore(start, user, evicted, f, now);
        OneMoreFamily(oldestFirst, i);
        rows := Revoke(rows, UserFamilyRows(rows, user, {f}), now);
        evicted := evicted + {f};
      }
    }

    /** Makes room for the family about to be issued. */
    method PrepareRefreshFamilySlot(cfg: Config, user: UserId, device: Option<Device>, now: int)
      returns (evicted: set<FamilyId>)
      requires cfg.Valid()
      modifies this
      ensures rows == Roomy(old(rows), user, device, evicted, now)
      ensures EvictsOldest(cfg, Cleared(old(rows), user, device, now), user, evicted)
    {
      RevokeDeviceFamilies(user, device, now);
      evicted := EvictOverflow(cfg, user, now);
    }

    method CreateRefreshTokenRow(cfg: Config, user: UserId, family: FamilyId, device: Option<Device>,
                                 familyCreatedAt: int,
                                 newId: RowId, newHash: TokenHash, now: int)
      requires FreshRow(rows, newId, newHash)
      modifies this
      ensures rows == old(rows)[newId := Row(user, newHash, family, familyCreatedAt, device, now + cfg.tokenLifetime,
                                             None, None)]
    {
      rows := rows[newId := Row(user, newHash, family, familyCreatedAt, device, now + cfg.tokenLifetime, None, None)];
    }

    /** The sign-in transaction; a failing signature rolls everything back. */
    method IssueSession(cfg: Config, user: UserId, device: Option<Device>, family: FamilyId, familyCreatedAt: int,
                        newId: RowId, newHash: TokenHash, signs: bool, now: int)
      returns (ok: bool, evicted: set<FamilyId>)
      requires cfg.Valid() && FreshRow(rows, newId, newHash)
      modifies this
      ensures ok == signs
      ensures !ok ==> rows == old(rows)
      ensures ok ==> rows == SignIn(cfg, old(rows), user, device, evicted, family, familyCreatedAt, newId, newHash, now)
      ensures EvictsOldest(cfg, Cleared(old(rows), user, device, now), user, evicted)
    {
      var before := rows;
      evicted := PrepareRefreshFamilySlot(cfg, user, device, now);
      RoomyOnlyRevokes(before, user, device, evicted, now);
      CreateRefreshTokenRow(cfg, user, family, device, familyCreatedAt, newId, newHash, now);
      ok := signs;
      if !signs { rows := before; }
    }

    /** The rotation transaction: claim, insert, link, sign; any failure leaves the table as it was. */
    method RotateInTransaction(cfg: Config, id: RowId, snap: Row, device: Option<Device>, newId: RowId,
                               newHash: TokenHash,
                               signs: bool, now: int) returns (rotated: bool)
      requires Recalls(rows, id, snap) && FreshRow(rows, newId, newHash)
      modifies this
      ensures rotated == (signs && Claimable(cfg, old(rows), id, now))
      ensures rows == if rotated then Rotate(cfg, old(rows), id, device, newId, newHash, now) else old(rows)
    {
      var before := rows;
      if !Claimable(cfg, rows, id, now) { return false; }
      rows := rows[id := rows[id].(revokedAt := Some(now))];
      CreateRefreshTokenRow(cfg, snap.user, snap.family,
                            if device.Some? then device else snap.device, snap.familyCreatedAt,
                            newId, newHash, now);
      rows := rows[id := rows[id].(replacedBy := Some(newId))];
      if !signs {
        rows := before;
        return false;
      }
      rotated := true;
    }

    method FindByToken(token: TokenHash) returns (found: Option<RowId>)
      ensures Finds(rows, token, found)
    {
      if id :| id in rows && rows[id].tokenHash == token {
        found := Some(id);
      } else {
        found := None;
      }
    }

    /**
     One refresh call that nothing interrupts. It succeeds exactly when the token is usable by this
     device now; presenting a used token, or one whose family is too old, ends the family; an expired
     one is revoked alone; a wrong device changes nothing.
     */
    method RefreshSession(cfg: Config, token: TokenHash, device: Option<Device>, newId: RowId, newHash: TokenHash,
                          signs: bool, now: int) returns (session: Option<RowId>)
      requires cfg.Valid() && UniqueTokens(rows) && FreshRow(rows, newId, newHash)
      modifies this
      ensures session.Some? <==> signs && (exists id :: UsableBy(cfg, old(rows), id, token, device, now))
      ensures session.Some? ==> session.value == newId && Live(rows, newId)
      ensures forall id | id in old(rows) && old(rows)[id].tokenHash == token ::
                && (old(rows)[id].revokedAt.Some? ==> Dead(rows, old(rows)[id].family))
                && (old(rows)[id].expiresAt > now && old(rows)[id].familyCreatedAt + cfg.maxAge <= now ==>
                      Dead(rows, old(rows)[id].family))
                && (Claimable(cfg, old(rows), id, now) && session.None? ==> rows == old(rows))
                && rows == Refreshed(cfg, old(rows), id, now, session.Some?, device, newHash, newId)
      ensures (forall id | id in old(rows) :: old(rows)[id].tokenHash != token) ==> rows == old(rows)
    {
      var found := FindByToken(token);
      if found.None? { return None; }
      var existing := rows[found.value];
      assert forall id :: UsableBy(cfg, rows, id, token, device, now) ==> id == found.value;
      ghost var usable := UsableBy(cfg, rows, found.value, token, device, now);
      match AfterChecks(cfg, now, found.value, existing, device) {
        case RefreshReused(family) =>
          RevokedFamilyIsDead(rows, family, now);
          rows := Revoke(rows, FamilyRows(rows, family), now);
          session := None;
        case RefreshExpired(id) =>
          rows := rows[id := rows[id].(revokedAt := Some(now))];
          session := None;
        case RefreshAged(family) =>
          RevokedFamilyIsDead(rows, family, now);
          rows := Revoke(rows, FamilyRows(rows, family), now);
          session := None;
        case RefreshClaim(id, snap, presented) =>
          var rotated := RotateInTransaction(cfg, id, snap, presented, newId, newHash, signs, now);
          session := if rotated then Some(newId) else None;
        case _ =>
          session := None;
      }
    }

    /** Ends one family, as device logout and reuse detection do. */
    method RevokeRefreshFamily(family: FamilyId, now: int)
      modifies this
      ensures rows == Revoke(old(rows), FamilyRows(old(rows), family), now)
      ensures HasRows(old(rows), family) ==> Dead(rows, family)
    {
      if HasFamily(rows, family) { RevokedFamilyIsDead(rows, family, now); }
      rows := Revoke(rows, FamilyRows(rows, family), now);
    }
  }

  /**
   The table after a refresh of this row: a used row ends its family, an expired one only itself, an old one
   its family.
   */
  function Refreshed(cfg: Config, rows: Rows, id: RowId, now: int, rotated: bool, device: Option<Device>,
                     newHash: TokenHash,
                     newId: RowId): Rows
    requires id in rows
  {
    var row := rows[id];
    if rotated then Rotate(cfg, rows, id, device, newId, newHash, now)
    else if row.revokedAt.Some? then Revoke(rows, FamilyRows(rows, row.family), now)
    else if row.expiresAt <= now then rows[id := row.(revokedAt := Some(now))]
    else if row.familyCreatedAt + cfg.maxAge <= now then Revoke(rows, FamilyRows(rows, row.family), now)
    else rows
  }

  /** The presented token is a row this device may rotate now. */
  predicate UsableBy(cfg: Config, rows: Rows, id: RowId, token: TokenHash, device: Option<Device>, now: int) {
    && id in rows && rows[id].tokenHash == token
    && Claimable(cfg, rows, id, now)
    && (rows[id].device.Some? ==> device == rows[id].device)
  }

  predicate HasFamily(rows: Rows, family: FamilyId)
    ensures HasFamily(rows, family) <==> HasRows(rows, family)
  {
    exists id | id in rows :: rows[id].family == family
  }
}
