/** Which token ends in which place on the device: sign-ins and refreshes that nothing disturbs, and all others. */
module MobileFlows {
  import opened Wrappers
  import opened MobileSession

  /** Both tokens of a session in memory and in the store, and its access token shown. */
  predicate Holds(t: Tokens, s: Session) {
    && t.memoryAccess == Some(s.token) && t.memoryRefresh == Some(s.refreshToken)
    && t.storedAccess == Some(s.token) && t.storedRefresh == Some(s.refreshToken)
    && t.shown == Some(s.token)
  }

  lemma AfterMore(a: App, es: seq<Event>, e: Event)
    ensures After(a, es + [e]) == Step(After(a, es), e)
  {
    assert (es + [e])[..|es|] == es;
  }

  // ----- a sign-in -----

  /** A sign-in that nothing disturbs puts each token in its places, and allows refreshing again. */
  lemma SignInLeaves(a: App, s: Session) returns (es: seq<Event>)
    requires a.login.None?
    ensures |es| > 0 && es[0] == StartLogin(s) && forall i | 1 <= i < |es| :: es[i] == RunLogin(false)
    ensures var b := After(a, es);
            && Holds(b.tokens, s) && b.sessionLive && b.refreshAllowed && b.login.None?
            && b.refreshes == a.refreshes && b.logouts == a.logouts && b.refreshEpoch == a.refreshEpoch
  {
    var go := RunLogin(false);
    es := [StartLogin(s)];
    AfterOne(a, StartLogin(s));
    assert After(a, es) == a.(login := Some(ClearingCache(s)));
    AfterMore(a, es, go);
    AfterMore(a, es + [go], go);
    AfterMore(a, es + [go] + [go], go);
    AfterMore(a, es + [go] + [go] + [go], go);
    AfterMore(a, es + [go] + [go] + [go] + [go], go);
    es := es + [go] + [go] + [go] + [go] + [go];
  }

  /** One whose first step fails leaves everything as it was. */
  lemma FailedSignInLeaves(a: App, s: Session)
    requires a.login.None?
    ensures After(a, [StartLogin(s)] + [RunLogin(true)]) == a
  {
    AfterOne(a, StartLogin(s));
    AfterMore(a, [StartLogin(s)], RunLogin(true));
  }

  // ----- a refresh -----

  /** The refresh token at hand: the one in memory, or else the one in the store. */
  function TokenAtHand(t: Tokens): Option<Token> {
    if t.memoryRefresh.Some? then t.memoryRefresh else t.storedRefresh
  }

  predicate MayRefresh(a: App) {
    a.refreshAllowed && a.refreshInFlight.None? && a.refreshes == map[] && a.sessionLive
  }

  /** A refresh that nothing disturbs posts the refresh token at hand; if there is none, it returns nothing. */
  lemma RefreshPosts(a: App) returns (es: seq<Event>)
    requires MayRefresh(a)
    ensures var (b, at) := (After(a, es), TokenAtHand(a.tokens));
            && a.next in b.refreshes && b.refreshes[a.next].epoch == a.refreshEpoch
            && b.refreshes[a.next].at == (if at.Some? then Posting(at.value) else Settled(None))
            && b == a.(refreshInFlight := Some(a.next), refreshes := b.refreshes, next := a.next + 1)
            && b.refreshes == map[a.next := b.refreshes[a.next]]
  {
    var go := RunRefresh(a.next, None, true);
    es := [Rotate];
    AfterOne(a, Rotate);
    AfterMore(a, es, go);
    if a.tokens.memoryRefresh.Some? {
      es := es + [go];
    } else {
      AfterMore(a, es + [go], go);
      es := es + [go] + [go];
    }
  }

  /** A refresh that is answered with a session, alone, up to where that is in its places. */
  lemma AnswerIsStored(a: App, id: Id, r: Refresh, answer: Session) returns (es: seq<Event>)
    requires a.refreshes == map[id := r] && r.at.Posting? && StillWanted(a, r) && a.sessionLive
    ensures var b := After(a, es);
            && Holds(b.tokens, answer)
            && b == a.(tokens := b.tokens, refreshes := map[id := r.(at := Persisted(answer))])
  {
    var first, go := RunRefresh(id, Some(answer), true), RunRefresh(id, None, true);
    es := [first];
    AfterOne(a, first);
    assert After(a, es).refreshes == map[id := r.(at := Persisting(answer, WritingAccess))];
    AfterMore(a, es, go);
    assert After(a, es + [go]).refreshes == map[id := r.(at := Persisting(answer, WroteAccess))];
    AfterMore(a, es + [go], go);
    assert After(a, es + [go] + [go]).refreshes == map[id := r.(at := Persisting(answer, WritingRefresh))];
    AfterMore(a, es + [go] + [go], go);
    assert After(a, es + [go] + [go] + [go]).refreshes == map[id := r.(at := Persisting(answer, WroteRefresh))];
    AfterMore(a, es + [go] + [go] + [go], go);
    es := es + [go] + [go] + [go] + [go];
    assert After(a, es).refreshes == map[id := r.(at := Persisted(answer))];
  }

  lemma StoredIsReturned(a: App, id: Id, r: Refresh, answer: Session) returns (es: seq<Event>)
    requires a.refreshes == map[id := r] && r.at == Persisted(answer) && StillWanted(a, r)
    ensures After(a, es) == a.(refreshes := map[], refreshInFlight := None,
                               results := a.results[id := Some(answer.token)])
  {
    var go := RunRefresh(id, None, true);
    AfterOne(a, go);
    assert After(a, [go]).refreshes == map[id := r.(at := Settled(Some(answer.token)))];
    AfterMore(a, [go], go);
    es := [go] + [go];
    assert After(a, es).refreshes == map[];
  }

  /**
   A refresh that nothing disturbs and the server answers leaves the tokens of the answer in their places and
   returns its access token.
   */
  lemma RefreshLeaves(a: App, answer: Session) returns (es: seq<Event>)
    requires MayRefresh(a) && TokenAtHand(a.tokens).Some?
    ensures var b := After(a, es);
            && Holds(b.tokens, answer) && a.next in b.results && b.results[a.next] == Some(answer.token)
            && b.refreshes == map[] && b.refreshInFlight.None? && b.refreshAllowed && b.sessionLive
  {
    var posted := RefreshPosts(a);
    var b := After(a, posted);
    var stored := AnswerIsStored(b, a.next, b.refreshes[a.next], answer);
    AfterBoth(a, posted, stored);
    var c := After(b, stored);
    var returned := StoredIsReturned(c, a.next, c.refreshes[a.next], answer);
    AfterBoth(a, posted + stored, returned);
    es := posted + stored + returned;
  }

  /** One that the server refuses leaves the tokens as they were and returns nothing. */
  lemma RefusedRefreshLeaves(a: App) returns (es: seq<Event>)
    requires MayRefresh(a) && TokenAtHand(a.tokens).Some?
    ensures var b := After(a, es);
            b.tokens == a.tokens && a.next in b.results && b.results[a.next] == None && b.refreshes == map[]
  {
    var posted := RefreshPosts(a);
    var b, go := After(a, posted), RunRefresh(a.next, None, true);
    AfterOne(b, go);
    assert Step(b, go).refreshes == map[a.next := b.refreshes[a.next].(at := Settled(None))];
    AfterMore(b, [go], go);
    AfterBoth(a, posted, [go] + [go]);
    es := posted + ([go] + [go]);
    assert After(a, es).refreshes == map[];
  }

  // ----- a logout -----

  /** A logout that nothing disturbs leaves no token, and clears memory and view before anything else. */
  lemma LogoutLeaves(a: App) returns (es: seq<Event>)
    requires FlightOk(a) && a.refreshInFlight.None? && a.refreshes == map[]
    ensures |es| > 2 && es[..2] == [StartLogout] + [RunLogout(a.next, true)]
    ensures var first := After(a, es[..2]).tokens;
            first.memoryAccess == None && first.memoryRefresh == None && first.shown == None
    ensures After(a, es).tokens == NO_TOKENS && a.next !in After(a, es).logouts && !After(a, es).sessionLive
  {
    var go, last := RunLogout(a.next, true), RunLogout(a.next, false);
    AfterOne(a, StartLogout);
    AfterMore(a, [StartLogout], go);
    var two := [StartLogout] + [go];
    assert After(a, two).logouts[a.next] == Clearing(false, false);
    AfterMore(a, two, go);
    AfterMore(a, two + [go], last);
    AfterMore(a, two + [go] + [last], go);
    AfterMore(a, two + [go] + [last] + [go], go);
    es := two + [go] + [last] + [go] + [go];
    assert es[..2] == two;
  }

  // ----- every run: tokens stay in their places -----

  /** The sessions that the first `i` events brought. */
  function Brought(es: seq<Event>, i: nat): set<Session>
    requires i <= |es|
  {
    if i == 0 then {}
    else
      Brought(es, i - 1)
      + (match es[i - 1]
         case StartLogin(s) => {s}
         case RunRefresh(_, Some(s), _) => {s}
         case _ => {})
  }

  /** An access token of the device's first session or of one that was brought. */
  predicate IsAccess(start: App, seen: set<Session>, t: Option<Token>) {
    t.None? || t == start.tokens.storedAccess || exists s :: s in seen && t == Some(s.token)
  }

  predicate IsRefresh(start: App, seen: set<Session>, t: Option<Token>) {
    t.None? || t == start.tokens.storedRefresh || exists s :: s in seen && t == Some(s.refreshToken)
  }

  predicate AreInPlace(start: App, seen: set<Session>, t: Tokens) {
    && IsAccess(start, seen, t.memoryAccess) && IsRefresh(start, seen, t.memoryRefresh)
    && IsAccess(start, seen, t.storedAccess) && IsRefresh(start, seen, t.storedRefresh)
    && IsAccess(start, seen, t.shown)
  }

  predicate RefreshInPlace(start: App, seen: set<Session>, at: RefreshAt) {
    match at
    case Reading => true
    case Read(token) => IsRefresh(start, seen, token)
    case Posting(sent) => IsRefresh(start, seen, Some(sent))
    case Persisting(s, _) => s in seen
    case Erasing(s, _, _) => s in seen
    case Persisted(s) => s in seen
    case Settled(result) => IsAccess(start, seen, result)
  }

  predicate InPlace(start: App, seen: set<Session>, a: App) {
    && AreInPlace(start, seen, a.tokens)
    && (forall id | id in a.refreshes :: RefreshInPlace(start, seen, a.refreshes[id].at))
    && (a.login.Some? ==> a.login.value.session in seen)
    && (forall id | id in a.results :: IsAccess(start, seen, a.results[id]))
  }

  lemma SeeingMore(start: App, seen: set<Session>, more: set<Session>, a: App)
    requires InPlace(start, seen, a) && seen <= more
    ensures InPlace(start, more, a)
  {
    forall t: Option<Token> | IsAccess(start, seen, t) ensures IsAccess(start, more, t) {
      if exists s :: s in seen && t == Some(s.token) {
        var s :| s in seen && t == Some(s.token);
        assert s in more;
      }
    }
    forall t: Option<Token> | IsRefresh(start, seen, t) ensures IsRefresh(start, more, t) {
      if exists s :: s in seen && t == Some(s.refreshToken) {
        var s :| s in seen && t == Some(s.refreshToken);
        assert s in more;
      }
    }
  }

  lemma SessionTokens(start: App, seen: set<Session>, s: Session)
    requires s in seen
    ensures IsAccess(start, seen, Some(s.token)) && IsRefresh(start, seen, Some(s.refreshToken))
  {
  }

  lemma RefreshMoveInPlace(start: App, seen: set<Session>, a: App, r: Refresh, response: Option<Session>,
                           accessFirst: bool)
    requires InPlace(start, seen, a) && RefreshInPlace(start, seen, r.at) && (response.Some? ==> response.value in seen)
    ensures var (tokens, at) := RefreshMove(a, r, response, accessFirst);
            AreInPlace(start, seen, tokens) && RefreshInPlace(start, seen, at)
  {
    match r.at
    case Posting(_) => if response.Some? { SessionTokens(start, seen, response.value); }
    case Persisting(s, _) => SessionTokens(start, seen, s);
    case Persisted(s) => SessionTokens(start, seen, s);
    case _ =>
  }

  lemma LogoutMoveInPlace(start: App, seen: set<Session>, a: App, l: Logout, accessFirst: bool)
    requires InPlace(start, seen, a)
    ensures AreInPlace(start, seen, LogoutMove(a, l, accessFirst).0)
  {
  }

  lemma LoginMoveInPlace(start: App, seen: set<Session>, a: App, l: Login, fails: bool)
    requires InPlace(start, seen, a) && l.session in seen
    ensures AreInPlace(start, seen, LoginMove(a, l, fails).0)
    ensures LoginMove(a, l, fails).1.Some? ==> LoginMove(a, l, fails).1.value.session in seen
  {
    SessionTokens(start, seen, l.session);
  }

  lemma RefreshStepInPlace(start: App, seen: set<Session>, a: App, id: Id, response: Option<Session>,
                           accessFirst: bool)
    requires InPlace(start, seen, a) && id in a.refreshes && (response.Some? ==> response.value in seen)
    ensures InPlace(start, seen, RefreshStep(a, id, a.refreshes[id], response, accessFirst))
  {
    if !a.refreshes[id].at.Settled? { RefreshMoveInPlace(start, seen, a, a.refreshes[id], response, accessFirst); }
  }

  lemma LogoutStepInPlace(start: App, seen: set<Session>, a: App, id: Id, accessFirst: bool)
    requires InPlace(start, seen, a) && id in a.logouts
    ensures InPlace(start, seen, LogoutStep(a, id, a.logouts[id], accessFirst))
  {
    LogoutMoveInPlace(start, seen, a, a.logouts[id], accessFirst);
  }

  lemma LoginStepInPlace(start: App, seen: set<Session>, a: App, fails: bool)
    requires InPlace(start, seen, a) && a.login.Some?
    ensures InPlace(start, seen, LoginStep(a, a.login.value, fails))
  {
    LoginMoveInPlace(start, seen, a, a.login.value, fails);
  }

  lemma RotatedInPlace(start: App, seen: set<Session>, a: App)
    requires InPlace(start, seen, a)
    ensures InPlace(start, seen, Rotated(a))
  {
  }

  lemma StepInPlace(start: App, seen: set<Session>, a: App, e: Event)
    requires InPlace(start, seen, a)
    requires e.StartLogin? ==> e.session in seen
    requires e.RunRefresh? && e.response.Some? ==> e.response.value in seen
    ensures InPlace(start, seen, Step(a, e))
  {
    match e
    case Rotate => RotatedInPlace(start, seen, a);
    case RunRefresh(id, response, accessFirst) =>
      if id in a.refreshes { RefreshStepInPlace(start, seen, a, id, response, accessFirst); }
    case StartLogout =>
    case RunLogout(id, accessFirst) =>
      if id in a.logouts { LogoutStepInPlace(start, seen, a, id, accessFirst); }
    case StartLogin(_) =>
    case RunLogin(fails) => if a.login.Some? { LoginStepInPlace(start, seen, a, fails); }
  }

  /**
   In every run memory, store and view hold access tokens where access tokens belong and refresh tokens where those
   belong: what is posted is a refresh token, and what a refresh returns an access token, of a session the device
   started with or was given.
   */
  lemma {:induction false} TokensStayInPlace(start: App, es: seq<Event>, i: nat)
    requires IsStart(start) && i <= |es|
    ensures InPlace(start, Brought(es, i), At(start, es, i))
    decreases i
  {
    if i == 0 {
    } else {
      TokensStayInPlace(start, es, i - 1);
      SeeingMore(start, Brought(es, i - 1), Brought(es, i), At(start, es, i - 1));
      Steps(start, es, i - 1);
      StepInPlace(start, Brought(es, i), At(start, es, i - 1), es[i - 1]);
    }
  }

  // ----- a refresh that is still storing its session when a logout begins -----

  predicate IsErasedBy(t: Tokens, access: bool, refresh: bool) {
    && t.memoryAccess == None && t.memoryRefresh == None
    && (access ==> t.storedAccess == None) && (refresh ==> t.storedRefresh == None)
  }

  /** It goes on writing, and then takes back all it wrote. */
  predicate TakesBack(a: App, id: Id) {
    && id < a.next && a.login.None? && !a.sessionLive && !a.refreshAllowed && a.refreshes.Keys <= {id}
    && if id !in a.refreshes then IsErasedBy(a.tokens, true, true)
       else match a.refreshes[id].at
         case Persisting(_, _) => true
         case Erasing(_, access, refresh) => IsErasedBy(a.tokens, access, refresh)
         case Persisted(_) => IsErasedBy(a.tokens, true, true)
         case Settled(_) => IsErasedBy(a.tokens, true, true)
         case _ => false
  }

  lemma RefreshTakesBack(a: App, id: Id, response: Option<Session>, accessFirst: bool)
    requires TakesBack(a, id) && id in a.refreshes
    ensures TakesBack(RefreshStep(a, id, a.refreshes[id], response, accessFirst), id)
  {
    var b := RefreshStep(a, id, a.refreshes[id], response, accessFirst);
    assert b.refreshes.Keys <= a.refreshes.Keys + {id};
  }

  lemma LogoutLetsTakeBack(a: App, id: Id, other: Id, accessFirst: bool)
    requires TakesBack(a, id) && other in a.logouts
    ensures TakesBack(LogoutStep(a, other, a.logouts[other], accessFirst), id)
  {
    LogoutMoveErases(a, a.logouts[other], accessFirst);
  }

  lemma StepTakesBack(a: App, e: Event, id: Id)
    requires TakesBack(a, id) && !e.StartLogin?
    ensures TakesBack(Step(a, e), id)
  {
    match e
    case RunRefresh(other, response, accessFirst) =>
      if other in a.refreshes {
        assert other in a.refreshes.Keys;
        RefreshTakesBack(a, id, response, accessFirst);
      }
    case RunLogout(other, accessFirst) => if other in a.logouts { LogoutLetsTakeBack(a, id, other, accessFirst); }
    case _ =>
  }

  lemma {:induction false} StillTakesBack(start: App, es: seq<Event>, i: nat, j: nat, id: Id)
    requires i <= j <= |es| && TakesBack(At(start, es, i), id) && NoSignIn(es, i, j)
    ensures TakesBack(At(start, es, j), id)
    decreases j
  {
    if i == j {
    } else {
      StillTakesBack(start, es, i, j - 1, id);
      Steps(start, es, j - 1);
      StepTakesBack(At(start, es, j - 1), es[j - 1], id);
    }
  }

  /**
   A refresh that is storing its session when a logout begins, with nobody signing in, has erased it from memory and
   store by the time it settles, even if the logout never gets to clear them, and it stays so until the next sign-in.
   */
  lemma OvertakenSessionIsErased(start: App, es: seq<Event>, c: nat, j: nat, id: Id)
    requires IsStart(start) && c < j <= |es| && es[c].StartLogout? && At(start, es, c).login.None?
    requires id in At(start, es, c).refreshes && At(start, es, c).refreshes[id].at.Persisting?
    requires NoSignIn(es, c + 1, j)
    requires var a := At(start, es, j); id in a.refreshes ==> a.refreshes[id].at.Settled?
    ensures var t := At(start, es, j).tokens;
            t.memoryAccess == None && t.memoryRefresh == None && t.storedAccess == None && t.storedRefresh == None
  {
    RunKeepsFlight(start, es, c);
    Steps(start, es, c);
    assert id in At(start, es, c).refreshes.Keys;
    StillTakesBack(start, es, c + 1, j, id);
  }
}
