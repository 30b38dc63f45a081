/**
 The mobile session: single-flight token refresh, logout and sign-in, interleaved at every
 `await`. What runs between two awaits is one step. A write or delete of the device's secure
 store takes effect in a step of its own, before the step that resumes its caller.
 */
module MobileSession {
  import opened Wrappers

  type Token = nat
  type Id = nat

  datatype Session = Session(token: Token, refreshToken: Token)

  /** The process-local mirror, the secure store, and the token held in the view state. */
  datatype Tokens = Tokens(
    memoryAccess: Option<Token>,
    memoryRefresh: Option<Token>,
    storedAccess: Option<Token>,
    storedRefresh: Option<Token>,
    shown: Option<Token>)

  const NO_TOKENS := Tokens(None, None, None, None, None)

  /** The three steps of storing a session after it was published to memory. */
  datatype Saving = WritingAccess | WroteAccess | WritingRefresh | WroteRefresh

  /** Where a refresh awaits. */
  datatype RefreshAt =
    | Reading
    | Read(token: Option<Token>)
    | Posting(sent: Token)
    | Persisting(session: Session, saving: Saving)
    | Erasing(session: Session, access: bool, refresh: bool)
    | Persisted(session: Session)
    | Settled(result: Option<Token>)

  datatype Refresh = Refresh(epoch: nat, at: RefreshAt)

  /** Where a logout awaits; `pending` is the refresh it saw in flight. */
  datatype Logout =
    | AwaitToken(pending: Option<Id>)
    | AwaitRefresh(pending: Option<Id>)
    | Clearing(access: bool, refresh: bool)
    | Revoking

  /** Where a sign-in awaits. */
  datatype Login = ClearingCache(session: Session) | Storing(session: Session, saving: Saving)

  /**
   `next` numbers refreshes and logouts. `results` is history: what finished refreshes returned.
   */
  datatype App = App(
    tokens: Tokens,
    sessionLive: bool,
    refreshInFlight: Option<Id>,
    refreshEpoch: nat,
    refreshAllowed: bool,
    refreshes: map<Id, Refresh>,
    logouts: map<Id, Logout>,
    login: Option<Login>,
    next: Id,
    results: map<Id, Option<Token>>)

  /** An app started with whatever the secure store holds. */
  function Started(access: Option<Token>, refresh: Option<Token>): App {
    App(NO_TOKENS.(storedAccess := access, storedRefresh := refresh), true, None, 0, true, map[], map[], None, 0, map[])
  }

  datatype Event =
    | Rotate
    | RunRefresh(id: Id, response: Option<Session>, accessFirst: bool)
    | StartLogout
    | RunLogout(id: Id, accessFirst: bool)
    | StartLogin(session: Session)
    | RunLogin(fails: bool)

  // ----- the token store -----

  function Published(t: Tokens, s: Session): Tokens {
    t.(memoryAccess := Some(s.token), memoryRefresh := Some(s.refreshToken))
  }

  /** The next step of writing a session to the secure store; `WroteRefresh` is the last. */
  function Save(t: Tokens, s: Session, saving: Saving): (Tokens, Saving) {
    match saving
    case WritingAccess => (t.(storedAccess := Some(s.token)), WroteAccess)
    case WroteAccess => (t, WritingRefresh)
    case WritingRefresh => (t.(storedRefresh := Some(s.refreshToken)), WroteRefresh)
    case WroteRefresh => (t, WroteRefresh)
  }

  function Forgotten(t: Tokens): Tokens {
    t.(memoryAccess := None, memoryRefresh := None)
  }

  function Erase(t: Tokens, accessFirst: bool): Tokens {
    if accessFirst then t.(storedAccess := None) else t.(storedRefresh := None)
  }

  // ----- refreshing -----

  function Rotated(a: App): App {
    if !a.refreshAllowed || a.refreshInFlight.Some? then a
    else
      var at := if a.tokens.memoryRefresh.Some? then Read(a.tokens.memoryRefresh) else Reading;
      a.(refreshInFlight := Some(a.next), refreshes := a.refreshes[a.next := Refresh(a.refreshEpoch, at)],
         next := a.next + 1)
  }

  /** The check made after every await: refreshing is still allowed and no logout began since. */
  predicate StillWanted(a: App, r: Refresh) {
    a.refreshAllowed && r.epoch == a.refreshEpoch
  }

  /** What the code between two awaits of a refresh does to the tokens, and where it awaits next. */
  function RefreshMove(a: App, r: Refresh, response: Option<Session>, accessFirst: bool): (Tokens, RefreshAt) {
    match r.at
    case Reading => (a.tokens, Read(a.tokens.storedRefresh))
    case Read(token) => (a.tokens, if token.None? || !StillWanted(a, r) then Settled(None) else Posting(token.value))
    case Posting(_) =>
      if response.None? || !StillWanted(a, r) then (a.tokens, Settled(None))
      else if !a.sessionLive then (a.tokens, Persisted(response.value))
      else (Published(a.tokens, response.value), Persisting(response.value, WritingAccess))
    case Persisting(s, saving) =>
      if !saving.WroteRefresh? then (Save(a.tokens, s, saving).0, Persisting(s, Save(a.tokens, s, saving).1))
      else if !a.sessionLive then (Forgotten(a.tokens), Erasing(s, false, false))
      else (a.tokens.(shown := Some(s.token)), Persisted(s))
    case Erasing(s, access, refresh) =>
      if access && refresh then (a.tokens, Persisted(s))
      else (Erase(a.tokens, accessFirst), Erasing(s, access || accessFirst, refresh || !accessFirst))
    case Persisted(s) => (a.tokens, Settled(if StillWanted(a, r) then Some(s.token) else None))
    case Settled(result) => (a.tokens, Settled(result))
  }

  function RefreshStep(a: App, id: Id, r: Refresh, response: Option<Session>, accessFirst: bool): App {
    if r.at.Settled? then a.(refreshes := a.refreshes - {id}, refreshInFlight := None,
                             results := a.results[id := r.at.result])
    else
      var (tokens, at) := RefreshMove(a, r, response, accessFirst);
      a.(tokens := tokens, refreshes := a.refreshes[id := r.(at := at)])
  }

  // ----- logging out -----

  function LogoutStarted(a: App): App {
    a.(sessionLive := false, refreshEpoch := a.refreshEpoch + 1, refreshAllowed := false,
       logouts := a.logouts[a.next := AwaitToken(a.refreshInFlight)], next := a.next + 1)
  }

  predicate MayClear(a: App, l: Logout) {
    match l
    case AwaitToken(pending) => pending.None?
    case AwaitRefresh(pending) => pending.None? || pending.value !in a.refreshes
    case _ => false
  }

  predicate IsErased(l: Logout) {
    l.Clearing? && l.access && l.refresh
  }

  function LogoutMove(a: App, l: Logout, accessFirst: bool): (Tokens, Logout) {
    if MayClear(a, l) then (Forgotten(a.tokens).(shown := None), Clearing(false, false))
    else match l
      case AwaitToken(pending) => (a.tokens, AwaitRefresh(pending))
      case AwaitRefresh(_) => (a.tokens, l)
      case Clearing(access, refresh) =>
        if IsErased(l) then (a.tokens, Revoking)
        else (Erase(a.tokens, accessFirst), Clearing(access || accessFirst, refresh || !accessFirst))
      case Revoking => (a.tokens, Revoking)
  }

  function LogoutStep(a: App, id: Id, l: Logout, accessFirst: bool): App {
    if l.Revoking? then a.(logouts := a.logouts - {id})
    else
      var (tokens, at) := LogoutMove(a, l, accessFirst);
      a.(tokens := tokens, logouts := a.logouts[id := at])
  }

  // ----- signing in -----

  predicate IsStored(l: Login) {
    l.Storing? && l.saving.WroteRefresh?
  }

  function LoginMove(a: App, l: Login, fails: bool): (Tokens, Option<Login>) {
    match l
    case ClearingCache(s) =>
      if fails then (a.tokens, None) else (Published(a.tokens, s), Some(Storing(s, WritingAccess)))
    case Storing(s, saving) =>
      if IsStored(l) then (a.tokens.(shown := Some(s.token)), None)
      else (Save(a.tokens, s, saving).0, Some(Storing(s, Save(a.tokens, s, saving).1)))
  }

  function LoginStep(a: App, l: Login, fails: bool): App {
    var (tokens, login) := LoginMove(a, l, fails);
    a.(tokens := tokens, login := login,
       sessionLive := a.sessionLive || IsStored(l), refreshAllowed := a.refreshAllowed || IsStored(l))
  }

  function Step(a: App, e: Event): App {
    match e
    case Rotate => Rotated(a)
    case RunRefresh(id, response, accessFirst) =>
      if id in a.refreshes then RefreshStep(a, id, a.refreshes[id], response, accessFirst) else a
    case StartLogout => LogoutStarted(a)
    case RunLogout(id, accessFirst) => if id in a.logouts then LogoutStep(a, id, a.logouts[id], accessFirst) else a
    case StartLogin(s) => if a.login.Some? then a else a.(login := Some(ClearingCache(s)))
    case RunLogin(fails) => if a.login.Some? then LoginStep(a, a.login.value, fails) else a
  }

  // ----- runs -----

  function After(start: App, es: seq<Event>): App {
    if es == [] then start else Step(After(start, es[..|es| - 1]), es[|es| - 1])
  }

  function At(start: App, es: seq<Event>, i: nat): App
    requires i <= |es|
  {
    After(start, es[..i])
  }

  lemma Steps(start: App, es: seq<Event>, i: nat)
    requires i < |es|
    ensures At(start, es, i + 1) == Step(At(start, es, i), es[i])
  {
    assert es[..i + 1][..i] == es[..i];
  }

  /** Runs begin with whatever the secure store holds; events come in any order. */
  predicate IsStart(a: App) {
    a == Started(a.tokens.storedAccess, a.tokens.storedRefresh)
  }

  predicate NoSignIn(es: seq<Event>, i: nat, j: nat)
    requires i <= j <= |es|
  {
    forall k | i <= k < j :: !es[k].StartLogin?
  }

  // ----- what holds of every run -----

  function Flight(inFlight: Option<Id>): set<Id> {
    if inFlight.Some? then {inFlight.value} else {}
  }

  /** The refresh in flight is the one that is remembered, if any, and no refresh is ahead of its time. */
  predicate FlightOk(a: App) {
    && a.refreshes.Keys == Flight(a.refreshInFlight)
    && (forall id | id in a.refreshes :: id < a.next && a.refreshes[id].epoch <= a.refreshEpoch)
    && (forall id | id in a.logouts :: id < a.next)
  }

  lemma RefreshKeepsFlight(a: App, id: Id, response: Option<Session>, accessFirst: bool)
    requires FlightOk(a) && id in a.refreshes
    ensures FlightOk(RefreshStep(a, id, a.refreshes[id], response, accessFirst))
  {
    var b := RefreshStep(a, id, a.refreshes[id], response, accessFirst);
    assert id in a.refreshes.Keys;
    if a.refreshes[id].at.Settled? {
      assert b.refreshes.Keys == {};
    } else {
      assert b.refreshes.Keys == a.refreshes.Keys;
    }
  }

  lemma StepKeepsFlight(a: App, e: Event)
    requires FlightOk(a)
    ensures FlightOk(Step(a, e))
  {
    if e.RunRefresh? && e.id in a.refreshes { RefreshKeepsFlight(a, e.id, e.response, e.accessFirst); }
  }

  lemma {:induction false} RunKeepsFlight(start: App, es: seq<Event>, i: nat)
    requires IsStart(start) && i <= |es|
    ensures FlightOk(At(start, es, i))
    decreases i
  {
    if i == 0 {
    } else {
      RunKeepsFlight(start, es, i - 1);
      Steps(start, es, i - 1);
      StepKeepsFlight(At(start, es, i - 1), es[i - 1]);
    }
  }

  /** Never are two refreshes outstanding. */
  lemma OneRefreshAtATime(start: App, es: seq<Event>, i: nat, a: Id, b: Id)
    requires IsStart(start) && i <= |es| && a in At(start, es, i).refreshes && b in At(start, es, i).refreshes
    ensures a == b && At(start, es, i).refreshInFlight == Some(a)
  {
    RunKeepsFlight(start, es, i);
    assert a in At(start, es, i).refreshes.Keys && b in At(start, es, i).refreshes.Keys;
  }

  // ----- a logout with no sign-in about -----

  predicate LogoutOk(a: App, l: Logout) {
    match l
    case AwaitToken(pending) => a.refreshes.Keys <= Flight(pending)
    case AwaitRefresh(pending) => a.refreshes.Keys <= Flight(pending)
    case Clearing(access, refresh) =>
      && a.refreshes == map[]
      && a.tokens.memoryAccess == None && a.tokens.memoryRefresh == None && a.tokens.shown == None
      && (access ==> a.tokens.storedAccess == None) && (refresh ==> a.tokens.storedRefresh == None)
    case Revoking => a.refreshes == map[] && a.tokens == NO_TOKENS
  }

  /** What holds from the start of a logout for as long as nobody signs in, also long after it has finished. */
  predicate InForce(a: App, id: Id) {
    && id < a.next && a.login.None? && !a.sessionLive && !a.refreshAllowed
    && LogoutOk(a, if id in a.logouts then a.logouts[id] else Revoking)
  }

  /** Clearing only ever erases, so no logout disturbs another. */
  predicate OnlyErases(before: Tokens, after: Tokens) {
    && (after.memoryAccess == before.memoryAccess || after.memoryAccess == None)
    && (after.memoryRefresh == before.memoryRefresh || after.memoryRefresh == None)
    && (after.storedAccess == before.storedAccess || after.storedAccess == None)
    && (after.storedRefresh == before.storedRefresh || after.storedRefresh == None)
    && (after.shown == before.shown || after.shown == None)
  }

  lemma LogoutMoveErases(a: App, l: Logout, accessFirst: bool)
    ensures OnlyErases(a.tokens, LogoutMove(a, l, accessFirst).0)
  {
  }

  lemma OwnMoveStaysInForce(a: App, id: Id, accessFirst: bool)
    requires InForce(a, id) && id in a.logouts
    ensures InForce(LogoutStep(a, id, a.logouts[id], accessFirst), id)
  {
    if MayClear(a, a.logouts[id]) { assert a.refreshes.Keys == {}; }
  }

  lemma OtherMoveStaysInForce(a: App, other: Id, accessFirst: bool, id: Id)
    requires InForce(a, id) && other in a.logouts && other != id
    ensures InForce(LogoutStep(a, other, a.logouts[other], accessFirst), id)
  {
    LogoutMoveErases(a, a.logouts[other], accessFirst);
  }

  lemma RefreshStaysInForce(a: App, other: Id, response: Option<Session>, accessFirst: bool, id: Id)
    requires InForce(a, id) && other in a.refreshes
    ensures InForce(RefreshStep(a, other, a.refreshes[other], response, accessFirst), id)
  {
    var b := RefreshStep(a, other, a.refreshes[other], response, accessFirst);
    assert b.refreshes.Keys <= a.refreshes.Keys;
    assert other in a.refreshes.Keys;
  }

  lemma StepStaysInForce(a: App, e: Event, id: Id)
    requires InForce(a, id) && !e.StartLogin?
    ensures InForce(Step(a, e), id)
  {
    match e
    case RunRefresh(other, response, accessFirst) =>
      if other in a.refreshes { RefreshStaysInForce(a, other, response, accessFirst, id); }
    case RunLogout(other, accessFirst) =>
      if other in a.logouts {
        if other == id {
          OwnMoveStaysInForce(a, id, accessFirst);
        } else {
          OtherMoveStaysInForce(a, other, accessFirst, id);
        }
      }
    case _ =>
  }

  lemma {:induction false} RunStaysInForce(start: App, es: seq<Event>, i: nat, j: nat, id: Id)
    requires i <= j <= |es| && InForce(At(start, es, i), id) && NoSignIn(es, i, j)
    ensures InForce(At(start, es, j), id)
    decreases j
  {
    if i == j {
    } else {
      RunStaysInForce(start, es, i, j - 1, id);
      Steps(start, es, j - 1);
      StepStaysInForce(At(start, es, j - 1), es[j - 1], id);
    }
  }

  lemma LogoutStartsInForce(a: App)
    requires FlightOk(a) && a.login.None?
    ensures InForce(LogoutStarted(a), a.next)
  {
  }

  /**
   A logout started while nobody is signing in holds at every later await, whatever else happens, until the next
   sign-in begins.
   */
  lemma LogoutHolds(start: App, es: seq<Event>, c: nat, j: nat)
    requires IsStart(start) && c < j <= |es| && es[c].StartLogout? && At(start, es, c).login.None?
    requires NoSignIn(es, c + 1, j)
    ensures InForce(At(start, es, j), At(start, es, c).next)
  {
    RunKeepsFlight(start, es, c);
    Steps(start, es, c);
    LogoutStartsInForce(At(start, es, c));
    RunStaysInForce(start, es, c + 1, j, At(start, es, c).next);
  }

  /** Step `i` completes the clearing of a logout. */
  predicate Clears(start: App, es: seq<Event>, i: nat, id: Id)
    requires i < |es|
  {
    && id in At(start, es, i).logouts && IsErased(At(start, es, i).logouts[id])
    && es[i].RunLogout? && es[i].id == id
  }

  lemma ClearingEnds(start: App, es: seq<Event>, i: nat, id: Id)
    requires i < |es| && Clears(start, es, i, id)
    ensures var a := At(start, es, i + 1); id in a.logouts && a.logouts[id].Revoking?
  {
    Steps(start, es, i);
  }

  lemma ClearedStaysAway(start: App, es: seq<Event>, i: nat, j: nat, id: Id)
    requires i <= j <= |es| && InForce(At(start, es, i), id) && NoSignIn(es, i, j)
    requires id in At(start, es, i).logouts ==> At(start, es, i).logouts[id].Revoking?
    ensures id in At(start, es, j).logouts ==> At(start, es, j).logouts[id].Revoking?
    decreases j
  {
    if i == j {
    } else {
      ClearedStaysAway(start, es, i, j - 1, id);
      RunStaysInForce(start, es, i, j - 1, id);
      Steps(start, es, j - 1);
    }
  }

  /**
   Once such a logout has cleared the session, no token is in memory, in the store or shown, and no refresh is
   working, until the next sign-in begins.
   */
  lemma LogoutClearsForGood(start: App, es: seq<Event>, c: nat, i: nat, j: nat)
    requires IsStart(start) && c < i < j <= |es| && es[c].StartLogout? && At(start, es, c).login.None?
    requires Clears(start, es, i, At(start, es, c).next) && NoSignIn(es, c + 1, j)
    ensures At(start, es, j).tokens == NO_TOKENS && At(start, es, j).refreshes == map[]
  {
    var id := At(start, es, c).next;
    LogoutHolds(start, es, c, i + 1);
    LogoutHolds(start, es, c, j);
    ClearingEnds(start, es, i, id);
    ClearedStaysAway(start, es, i + 1, j, id);
  }

  // ----- refreshes overtaken by a logout -----

  /** A refresh that a logout overtook: in flight it is of an older epoch, and finished it returned nothing. */
  predicate Overtaken(a: App, id: Id) {
    if id in a.refreshes then
      var r := a.refreshes[id];
      r.epoch < a.refreshEpoch && !(r.at.Settled? && r.at.result.Some?)
    else id < a.next && id in a.results && a.results[id] == None
  }

  lemma MoveKeepsOvertaken(a: App, r: Refresh, response: Option<Session>, accessFirst: bool)
    requires r.epoch < a.refreshEpoch && !r.at.Settled?
    ensures var at := RefreshMove(a, r, response, accessFirst).1; at.Settled? ==> at.result == None
  {
  }

  lemma RefreshKeepsOvertaken(a: App, other: Id, response: Option<Session>, accessFirst: bool, id: Id)
    requires FlightOk(a) && Overtaken(a, id) && other in a.refreshes
    ensures Overtaken(RefreshStep(a, other, a.refreshes[other], response, accessFirst), id)
  {
    var r := a.refreshes[other];
    assert other in a.refreshes.Keys;
    if other == id && !r.at.Settled? { MoveKeepsOvertaken(a, r, response, accessFirst); }
    assert id in a.refreshes ==> id in a.refreshes.Keys;
  }

  lemma SameRefreshesKeepOvertaken(a: App, b: App, id: Id)
    requires Overtaken(a, id) && b.refreshes == a.refreshes && b.results == a.results
    requires b.refreshEpoch >= a.refreshEpoch && b.next >= a.next
    ensures Overtaken(b, id)
  {
  }

  lemma StepKeepsOvertaken(a: App, e: Event, id: Id)
    requires FlightOk(a) && Overtaken(a, id)
    ensures Overtaken(Step(a, e), id)
  {
    match e
    case RunRefresh(other, response, accessFirst) =>
      if other in a.refreshes { RefreshKeepsOvertaken(a, other, response, accessFirst, id); }
    case RunLogout(l, accessFirst) =>
      if l in a.logouts { SameRefreshesKeepOvertaken(a, LogoutStep(a, l, a.logouts[l], accessFirst), id); }
    case RunLogin(fails) => if a.login.Some? { SameRefreshesKeepOvertaken(a, LoginStep(a, a.login.value, fails), id); }
    case Rotate =>
    case StartLogout =>
    case StartLogin(_) =>
  }

  lemma {:induction false} OvertakenStays(start: App, es: seq<Event>, i: nat, j: nat, id: Id)
    requires IsStart(start) && i <= j <= |es| && Overtaken(At(start, es, i), id)
    ensures Overtaken(At(start, es, j), id)
    decreases j
  {
    if i == j {
    } else {
      OvertakenStays(start, es, i, j - 1, id);
      RunKeepsFlight(start, es, j - 1);
      Steps(start, es, j - 1);
      StepKeepsOvertaken(At(start, es, j - 1), es[j - 1], id);
    }
  }

  /** A refresh still working when a logout begins never hands out a token, not even after a later sign-in. */
  lemma OvertakenRefreshReturnsNothing(start: App, es: seq<Event>, i: nat, j: nat, id: Id)
    requires IsStart(start) && i < j <= |es| && es[i].StartLogout?
    requires id in At(start, es, i).refreshes && !At(start, es, i).refreshes[id].at.Settled?
    requires id !in At(start, es, j).refreshes
    ensures id in At(start, es, j).results && At(start, es, j).results[id] == None
  {
    RunKeepsFlight(start, es, i);
    Steps(start, es, i);
    OvertakenStays(start, es, i + 1, j, id);
  }

  // ----- a logout while somebody signs in -----

  lemma {:induction false} AfterBoth(a: App, x: seq<Event>, y: seq<Event>)
    ensures After(a, x + y) == After(After(a, x), y)
  {
    if y == [] {
      assert x + y == x;
    } else {
      assert (x + y)[..|x + y| - 1] == x + y[..|y| - 1];
      AfterBoth(a, x, y[..|y| - 1]);
    }
  }

  lemma AfterOne(a: App, e: Event)
    ensures After(a, [e]) == Step(a, e)
  {
    assert [e][..0] == [];
  }

  /** How many steps a refresh still needs when the server does not answer it. */
  function StepsLeft(at: RefreshAt): nat {
    match at
    case Reading => 3
    case Read(_) => 2
    case Posting(_) => 1
    case Persisting(_, saving) =>
      (match saving case WritingAccess => 8 case WroteAccess => 7 case WritingRefresh => 6 case WroteRefresh => 5)
    case Erasing(_, access, refresh) => 2 + (if access then 0 else 1) + (if refresh then 0 else 1)
    case Persisted(_) => 1
    case Settled(_) => 0
  }

  /** Neither a sign-in nor anything else that a logout does not wait for. */
  predicate OnlyRuns(es: seq<Event>) {
    forall k | 0 <= k < |es| :: es[k].RunRefresh? || es[k].RunLogout? || es[k].RunLogin?
  }

  lemma RefreshComesCloser(a: App, id: Id, e: Event)
    requires FlightOk(a) && id in a.refreshes
    requires e == RunRefresh(id, None, a.refreshes[id].at.Erasing? && !a.refreshes[id].at.access)
    ensures var b := Step(a, e);
            && FlightOk(b) && b.login == a.login && b.logouts == a.logouts
            && (if a.refreshes[id].at.Settled? then b.refreshes == map[]
                else id in b.refreshes && StepsLeft(b.refreshes[id].at) < StepsLeft(a.refreshes[id].at))
  {
    StepKeepsFlight(a, e);
    assert id in a.refreshes.Keys;
    if a.refreshes[id].at.Settled? { assert Step(a, e).refreshes.Keys == {}; }
  }

  lemma {:induction false} RefreshEnds(a: App, id: Id) returns (es: seq<Event>)
    requires FlightOk(a) && id in a.refreshes
    ensures OnlyRuns(es)
    ensures After(a, es).refreshes == map[] && After(a, es).login == a.login && After(a, es).logouts == a.logouts
    decreases StepsLeft(a.refreshes[id].at)
  {
    var at := a.refreshes[id].at;
    var e := RunRefresh(id, None, at.Erasing? && !at.access);
    RefreshComesCloser(a, id, e);
    AfterOne(a, e);
    if at.Settled? {
      es := [e];
    } else {
      var rest := RefreshEnds(Step(a, e), id);
      AfterBoth(a, [e], rest);
      es := [e] + rest;
    }
  }

  lemma NothingInFlight(a: App) returns (es: seq<Event>)
    requires FlightOk(a)
    ensures OnlyRuns(es)
    ensures After(a, es).refreshes == map[] && After(a, es).login == a.login && After(a, es).logouts == a.logouts
  {
    if id :| id in a.refreshes { es := RefreshEnds(a, id); } else { es := []; }
  }

  function LogoutStepsLeft(l: Logout): nat {
    match l
    case AwaitToken(_) => 4
    case AwaitRefresh(_) => 3
    case Clearing(access, refresh) => (if access then 0 else 1) + (if refresh then 0 else 1)
    case Revoking => 0
  }

  /** Up to the point at which its next step completes the clearing. */
  lemma {:induction false} GetsErased(a: App, id: Id) returns (es: seq<Event>)
    requires a.refreshes == map[] && id in a.logouts && !a.logouts[id].Revoking?
    ensures OnlyRuns(es)
    ensures After(a, es).login == a.login && id in After(a, es).logouts && IsErased(After(a, es).logouts[id])
    decreases LogoutStepsLeft(a.logouts[id])
  {
    var l := a.logouts[id];
    if IsErased(l) {
      es := [];
    } else {
      var e := RunLogout(id, !l.Clearing? || !l.access);
      AfterOne(a, e);
      var rest := GetsErased(Step(a, e), id);
      AfterBoth(a, [e], rest);
      es := [e] + rest;
    }
  }

  lemma SignInLeavesToken(a: App) returns (es: seq<Event>)
    requires a.login.Some?
    ensures OnlyRuns(es) && After(a, es).tokens != NO_TOKENS
  {
    var e := RunLogin(false);
    var b := Step(a, e);
    AfterOne(a, e);
    if b.tokens == NO_TOKENS {
      AfterOne(b, e);
      AfterBoth(a, [e], [e]);
      es := [e] + [e];
    } else {
      es := [e];
    }
  }

  /**
   Wherever a logout that has not cleared yet and a sign-in overlap, the sign-in, going on alone, can put tokens
   back after the logout has cleared.
   */
  lemma SignInBringsTokensBack(a: App, id: Id) returns (es: seq<Event>, k: nat)
    requires FlightOk(a) && a.login.Some? && id in a.logouts && !a.logouts[id].Revoking?
    ensures OnlyRuns(es) && k < |es| && Clears(a, es, k, id) && After(a, es).tokens != NO_TOKENS
  {
    var drain := NothingInFlight(a);
    var b := After(a, drain);
    var erase := GetsErased(b, id);
    var c := After(b, erase);
    AfterBoth(a, drain, erase);
    var e := RunLogout(id, true);
    AfterOne(c, e);
    AfterBoth(a, drain + erase, [e]);
    var finish := SignInLeavesToken(Step(c, e));
    AfterBoth(a, drain + erase + [e], finish);
    k := |drain + erase|;
    es := drain + erase + [e] + finish;
    assert es[..k] == drain + erase;
  }

  /** After every point at which this logout clears, no token comes back. */
  ghost predicate ClearsForGood(start: App, es: seq<Event>, id: Id) {
    forall i, j | 0 <= i < j <= |es| && Clears(start, es, i, id) :: At(start, es, j).tokens == NO_TOKENS
  }

  lemma CalmLogoutClears(start: App, es: seq<Event>, more: seq<Event>)
    requires IsStart(start) && After(start, es).login.None? && NoSignIn(more, 0, |more|)
    ensures ClearsForGood(LogoutStarted(After(start, es)), more, After(start, es).next)
  {
    var a, all := After(start, es), es + [StartLogout] + more;
    var b := LogoutStarted(a);
    AfterOne(a, StartLogout);
    AfterBoth(start, es, [StartLogout]);
    forall n | 0 <= n <= |more| ensures At(b, more, n) == At(start, all, |es| + 1 + n) {
      assert all[..|es| + 1 + n] == (es + [StartLogout]) + more[..n];
      AfterBoth(start, es + [StartLogout], more[..n]);
    }
    forall i, j | 0 <= i < j <= |more| && Clears(b, more, i, a.next) ensures At(b, more, j).tokens == NO_TOKENS {
      assert all[..|es|] == es && all[|es| + 1 + i] == more[i];
      assert Clears(start, all, |es| + 1 + i, a.next);
      forall x | |es| + 1 <= x < |es| + 1 + j ensures !all[x].StartLogin? { assert all[x] == more[x - |es| - 1]; }
      LogoutClearsForGood(start, all, |es|, |es| + 1 + i, |es| + 1 + j);
    }
  }

  lemma HurriedLogoutFails(start: App, es: seq<Event>) returns (more: seq<Event>)
    requires IsStart(start) && After(start, es).login.Some?
    ensures NoSignIn(more, 0, |more|)
    ensures !ClearsForGood(LogoutStarted(After(start, es)), more, After(start, es).next)
  {
    var a := After(start, es);
    assert es[..|es|] == es;
    RunKeepsFlight(start, es, |es|);
    StepKeepsFlight(a, StartLogout);
    var events, k := SignInBringsTokensBack(LogoutStarted(a), a.next);
    more := events;
    assert more[..|more|] == more;
    assert At(LogoutStarted(a), more, |more|).tokens != NO_TOKENS;
  }

  /**
   From any reachable state, exactly when a logout clears the device for good, that is in every continuation in
   which nobody begins to sign in: when nobody is signing in as it starts.
   */
  lemma LogoutClearsExactly(start: App, es: seq<Event>)
    requires IsStart(start)
    ensures (forall more | NoSignIn(more, 0, |more|) ::
               ClearsForGood(LogoutStarted(After(start, es)), more, After(start, es).next))
            <==> After(start, es).login.None?
  {
    if After(start, es).login.None? {
      forall more | NoSignIn(more, 0, |more|)
        ensures ClearsForGood(LogoutStarted(After(start, es)), more, After(start, es).next)
      {
        CalmLogoutClears(start, es, more);
      }
    } else {
      var more := HurriedLogoutFails(start, es);
    }
  }

  // ----- the client -----

  /**
   The module variables of the API client, the token store and the auth provider; each method is what runs up
   to the next `await`.
   */
  class AuthClient {
    var memoryAccess: Option<Token>
    var memoryRefresh: Option<Token>
    var storedAccess: Option<Token>
    var storedRefresh: Option<Token>
    var shown: Option<Token>
    var sessionLive: bool
    var refreshInFlight: Option<Id>
    var refreshEpoch: nat
    var refreshAllowed: bool
    var refreshes: map<Id, Refresh>
    var logouts: map<Id, Logout>
    var login: Option<Login>
    var next: Id
    ghost var results: map<Id, Option<Token>>

    ghost function Contents(): App
      reads this
    {
      App(Tokens(memoryAccess, memoryRefresh, storedAccess, storedRefresh, shown), sessionLive, refreshInFlight,
          refreshEpoch, refreshAllowed,
          refreshes, logouts, login, next, results)
    }

    constructor (access: Option<Token>, refresh: Option<Token>)
      ensures Contents() == Started(access, refresh)
    {
      memoryAccess, memoryRefresh, storedAccess, storedRefresh, shown := None, None, access, refresh, None;
      sessionLive, refreshInFlight, refreshEpoch, refreshAllowed := true, None, 0, true;
      refreshes, logouts, login, next, results := map[], map[], None, 0, map[];
    }

    method AbandonInFlightRefresh()
      modifies `refreshEpoch, `refreshAllowed
      ensures refreshEpoch == old(refreshEpoch) + 1 && !refreshAllowed
    {
      refreshEpoch := refreshEpoch + 1;
      refreshAllowed := false;
    }

    method Publish(s: Session)
      modifies `memoryAccess, `memoryRefresh
      ensures Contents() == old(Contents()).(tokens := Published(old(Contents()).tokens, s))
    {
      memoryAccess := Some(s.token);
      memoryRefresh := Some(s.refreshToken);
    }

    method Forget()
      modifies `memoryAccess, `memoryRefresh
      ensures Contents() == old(Contents()).(tokens := Forgotten(old(Contents()).tokens))
    {
      memoryAccess := None;
      memoryRefresh := None;
    }

    method SaveNext(s: Session, saving: Saving) returns (saved: Saving)
      modifies `storedAccess, `storedRefresh
      ensures Contents() == old(Contents()).(tokens := Save(old(Contents()).tokens, s, saving).0)
      ensures saved == Save(old(Contents()).tokens, s, saving).1
    {
      saved := saving;
      match saving
      case WritingAccess =>
        storedAccess := Some(s.token);
        saved := WroteAccess;
      case WroteAccess => saved := WritingRefresh;
      case WritingRefresh =>
        storedRefresh := Some(s.refreshToken);
        saved := WroteRefresh;
      case WroteRefresh =>
    }

    method EraseOne(accessFirst: bool)
      modifies `storedAccess, `storedRefresh
      ensures Contents() == old(Contents()).(tokens := Erase(old(Contents()).tokens, accessFirst))
    {
      if accessFirst { storedAccess := None; } else { storedRefresh := None; }
    }

    /** Starts a refresh, unless none is allowed or one is in flight already. */
    method RotateAccessToken()
      modifies this
      ensures Contents() == Rotated(old(Contents()))
    {
      if !refreshAllowed || refreshInFlight.Some? { return; }
      var at := if memoryRefresh.Some? then Read(memoryRefresh) else Reading;
      refreshes := refreshes[next := Refresh(refreshEpoch, at)];
      refreshInFlight := Some(next);
      next := next + 1;
    }

    /** The callback that stores a refreshed session, between the check before its writes and the one after. */
    method PersistNext(r: Refresh, accessFirst: bool) returns (at: RefreshAt)
      requires r.at.Persisting? || r.at.Erasing?
      modifies `memoryAccess, `memoryRefresh, `storedAccess, `storedRefresh, `shown
      ensures Contents() == old(Contents()).(tokens := RefreshMove(old(Contents()), r, None, accessFirst).0)
      ensures at == RefreshMove(old(Contents()), r, None, accessFirst).1
    {
      var s := r.at.session;
      if r.at.Erasing? {
        if r.at.access && r.at.refresh {
          at := Persisted(s);
        } else {
          EraseOne(accessFirst);
          at := Erasing(s, r.at.access || accessFirst, r.at.refresh || !accessFirst);
        }
      } else if !r.at.saving.WroteRefresh? {
        var saved := SaveNext(s, r.at.saving);
        at := Persisting(s, saved);
      } else if !sessionLive {
        Forget();
        at := Erasing(s, false, false);
      } else {
        shown := Some(s.token);
        at := Persisted(s);
      }
    }

    /** The refresh itself: after every await it checks that it is still wanted. */
    method RefreshNext(r: Refresh, response: Option<Session>, accessFirst: bool) returns (at: RefreshAt)
      requires !r.at.Settled?
      modifies `memoryAccess, `memoryRefresh, `storedAccess, `storedRefresh, `shown
      ensures Contents() == old(Contents()).(tokens := RefreshMove(old(Contents()), r, response, accessFirst).0)
      ensures at == RefreshMove(old(Contents()), r, response, accessFirst).1
    {
      var wanted := refreshAllowed && r.epoch == refreshEpoch;
      if r.at.Reading? {
        at := Read(storedRefresh);
      } else if r.at.Read? {
        at := if r.at.token.None? || !wanted then Settled(None) else Posting(r.at.token.value);
      } else if r.at.Posting? {
        if response.None? || !wanted {
          at := Settled(None);
        } else if !sessionLive {
          at := Persisted(response.value);
        } else {
          Publish(response.value);
          at := Persisting(response.value, WritingAccess);
        }
      } else if r.at.Persisted? {
        at := Settled(if wanted then Some(r.at.session.token) else None);
      } else {
        at := PersistNext(r, accessFirst);
      }
    }

    /** Runs a refresh up to its next await: `response` is what the server answered, if that is what it awaited. */
    method RunRefreshNext(id: Id, response: Option<Session>, accessFirst: bool)
      requires id in refreshes
      modifies this
      ensures Contents() == RefreshStep(old(Contents()), id, old(refreshes)[id], response, accessFirst)
    {
      var r := refreshes[id];
      if r.at.Settled? {
        refreshInFlight := None;
        results := results[id := r.at.result];
        refreshes := refreshes - {id};
      } else {
        var at := RefreshNext(r, response, accessFirst);
        refreshes := refreshes[id := r.(at := at)];
      }
    }

    method StartLogout()
      modifies this
      ensures Contents() == LogoutStarted(old(Contents()))
    {
      sessionLive := false;
      AbandonInFlightRefresh();
      logouts := logouts[next := AwaitToken(refreshInFlight)];
      next := next + 1;
    }

    method RunLogoutNext(id: Id, accessFirst: bool)
      requires id in logouts
      modifies this
      ensures Contents() == LogoutStep(old(Contents()), id, old(logouts)[id], accessFirst)
    {
      var l := logouts[id];
      var pending := match l case AwaitToken(p) => p case AwaitRefresh(p) => p case _ => None;
      if (l.AwaitToken? && pending.None?) || (l.AwaitRefresh? && (pending.None? || pending.value !in refreshes)) {
        shown := None;
        Forget();
        logouts := logouts[id := Clearing(false, false)];
      } else if l.AwaitToken? {
        logouts := logouts[id := AwaitRefresh(pending)];
      } else if l.Clearing? {
        if l.access && l.refresh {
          logouts := logouts[id := Revoking];
        } else {
          EraseOne(accessFirst);
          logouts := logouts[id := Clearing(l.access || accessFirst, l.refresh || !accessFirst)];
        }
      } else if l.Revoking? {
        logouts := logouts - {id};
      } else {
        logouts := logouts[id := l];
      }
    }

    method StartLogin(s: Session)
      requires login.None?
      modifies this
      ensures Contents() == Step(old(Contents()), Event.StartLogin(s))
    {
      login := Some(ClearingCache(s));
    }

    /** The token is shown only after both writes, and refreshing is allowed again only then. */
    method RunLoginNext(fails: bool)
      requires login.Some?
      modifies this
      ensures Contents() == LoginStep(old(Contents()), old(login).value, fails)
    {
      match login.value
      case ClearingCache(s) =>
        if fails {
          login := None;
        } else {
          Publish(s);
          login := Some(Storing(s, WritingAccess));
        }
      case Storing(s, saving) =>
        if saving.WroteRefresh? {
          sessionLive := true;
          refreshAllowed := true;
          shown := Some(s.token);
          login := None;
        } else {
          var saved := SaveNext(s, saving);
          login := Some(Storing(s, saved));
        }
    }
  }
}
