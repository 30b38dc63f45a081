/** When a readiness alert is due, and the keys that keep the queue from sending one twice. */
module AlertRules {
  import opened Wrappers
  import opened Numerals
  import opened Text
  import opened Calendar
  import opened StabilityEngine

  const RISK_SCORE_DROP := 15
  const RISK_COOLDOWN_MS := 24 * 60 * 60 * 1000

  datatype Decision = Risk | Recovery

  /** What was last notified for one user and goal. */
  datatype Baseline = Baseline(status: Option<Status>, score: Option<int>, riskAt: Option<nat>, recoveryAt: Option<nat>)

  const NOTHING_NOTIFIED := Baseline(None, None, None, None)

  function RiskDecision(status: Status, score: int, baseline: Baseline, now: nat): Option<Decision> {
    if status.Stable? then
      if baseline.status == Some(Warning) || baseline.status == Some(Critical) then Some(Recovery) else None
    else if baseline.riskAt.Some? && now - baseline.riskAt.value < RISK_COOLDOWN_MS then None
    else if baseline.status.None? || baseline.score.None? then Some(Risk)
    else if Severity(status) > Severity(baseline.status.value) then Some(Risk)
    else if score <= baseline.score.value - RISK_SCORE_DROP then Some(Risk)
    else None
  }

  // ----- the key of a risk or recovery alert -----

  function StatusText(s: Status): string {
    match s
    case Stable => "stable"
    case Warning => "warning"
    case Critical => "critical"
  }

  function OptionalStatusText(s: Option<Status>): string {
    if s.Some? then StatusText(s.value) else "none"
  }

  function ScoreText(score: int): string {
    if score < 0 then "-" + Decimal(-score) else Decimal(score)
  }

  function OptionalScoreText(s: Option<int>): string {
    if s.Some? then ScoreText(s.value) else "none"
  }

  function TypeText(d: Decision): string {
    if d.Risk? then "risk.alert" else "risk.recovery"
  }

  /** The last alert of the other kind, or of the same kind if there was none. */
  function Anchor(d: Decision, baseline: Baseline): Option<nat> {
    if d.Risk? then (if baseline.recoveryAt.Some? then baseline.recoveryAt else baseline.riskAt)
    else (if baseline.riskAt.Some? then baseline.riskAt else baseline.recoveryAt)
  }

  function AnchorText(anchor: Option<nat>): string {
    if anchor.Some? then IsoInstant(anchor.value) else "initial"
  }

  /** The fields joined by colons. */
  function AlertOccurrenceKey(d: Decision, user: string, goal: string, baseline: Baseline, status: Status,
                              score: int): string
  {
    TypeText(d) + ":" + (user + ":"
                         + (goal + ":" + (AnchorText(Anchor(d, baseline)) + ":" + KeyTail(baseline, status, score))))
  }

  function KeyTail(baseline: Baseline, status: Status, score: int): string {
    OptionalStatusText(baseline.status) + ":"
        + (OptionalScoreText(baseline.score) + ":" + (StatusText(status) + ":" + ScoreText(score)))
  }

  // ----- a key determines what it was made from -----

  predicate NoColon(s: string) {
    ':' !in s
  }

  lemma DecimalIsPlain(n: nat)
    ensures NoColon(Decimal(n)) && Decimal(n)[0] != '-' && Decimal(n)[0] != 'n'
  {
  }

  lemma ScoreTextInjective(a: int, b: int)
    requires ScoreText(a) == ScoreText(b)
    ensures a == b
  {
    var x, y := if a < 0 then -a else a, if b < 0 then -b else b;
    DecimalIsPlain(x);
    DecimalIsPlain(y);
    if a < 0 { assert ScoreText(a)[0] == '-' && ScoreText(a)[1..] == Decimal(x); }
    if b < 0 { assert ScoreText(b)[0] == '-' && ScoreText(b)[1..] == Decimal(y); }
    DecimalInjective(x, y);
  }

  lemma ScoreTextIsPlain(a: int)
    ensures NoColon(ScoreText(a)) && ScoreText(a)[0] != 'n'
  {
    DecimalIsPlain(if a < 0 then -a else a);
  }

  lemma OptionalTextsInjective(s: Option<Status>, t: Option<Status>, m: Option<int>, n: Option<int>)
    ensures NoColon(OptionalStatusText(s)) && NoColon(OptionalScoreText(m))
    ensures OptionalStatusText(s) == OptionalStatusText(t) ==> s == t
    ensures OptionalScoreText(m) == OptionalScoreText(n) ==> m == n
  {
    StatusTextsDiffer();
    if m.Some? { ScoreTextIsPlain(m.value); }
    if n.Some? { ScoreTextIsPlain(n.value); }
    if m.Some? && n.Some? && OptionalScoreText(m) == OptionalScoreText(n) { ScoreTextInjective(m.value, n.value); }
    assert "none"[0] == 'n';
  }

  lemma StatusTextsDiffer()
    ensures forall s, t: Status | StatusText(s) == StatusText(t) :: s == t
    ensures forall s: Status :: StatusText(s) != "none" && NoColon(StatusText(s))
  {
    assert "stable"[0] == 's' && "warning"[0] == 'w' && "critical"[0] == 'c' && "none"[0] == 'n';
  }

  predicate TimesAreRepresentable(b: Baseline) {
    (b.riskAt.Some? ==> InFourDigitYears(b.riskAt.value))
        && (b.recoveryAt.Some? ==> InFourDigitYears(b.recoveryAt.value))
  }

  lemma AnchorSplits(a: Option<nat>, b: Option<nat>, s: string, t: string)
    requires a.Some? ==> InFourDigitYears(a.value)
    requires b.Some? ==> InFourDigitYears(b.value)
    requires AnchorText(a) + ":" + s == AnchorText(b) + ":" + t
    ensures a == b && s == t
  {
    var x, y := AnchorText(a) + ":" + s, AnchorText(b) + ":" + t;
    assert x[0] == AnchorText(a)[0] && y[0] == AnchorText(b)[0];
    assert "initial"[0] == 'i';
    if a.Some? { InstantStartsWithDigit(a.value); }
    if b.Some? { InstantStartsWithDigit(b.value); }
    assert |AnchorText(a)| == |AnchorText(b)|;
    assert x[..|AnchorText(a)|] == AnchorText(a) && y[..|AnchorText(b)|] == AnchorText(b);
    assert x[|AnchorText(a)| + 1..] == s && y[|AnchorText(b)| + 1..] == t;
    if a.Some? { IsoInstantInjective(a.value, b.value); }
  }

  lemma InstantStartsWithDigit(ms: nat)
    ensures IsDigit(IsoInstant(ms)[0])
  {
    var year := Padded(DateOf(EPOCH_DAY + ms / MS_PER_DAY).year, 4);
    assert IsoInstant(ms)[0] == year[0];
  }

  lemma TailDetermines(b: Baseline, status: Status, score: int, b': Baseline, status': Status, score': int)
    requires KeyTail(b, status, score) == KeyTail(b', status', score')
    ensures b.status == b'.status && b.score == b'.score && status == status' && score == score'
  {
    OptionalTextsInjective(b.status, b'.status, b.score, b'.score);
    OptionalTextsInjective(b'.status, b.status, b'.score, b.score);
    StatusTextsDiffer();
    var s, t := StatusText(status) + ":" + ScoreText(score), StatusText(status') + ":" + ScoreText(score');
    SplitAtFirst(':', OptionalStatusText(b.status), OptionalStatusText(b'.status), OptionalScoreText(b.score) + ":" + s,
                 OptionalScoreText(b'.score) + ":" + t);
    SplitAtFirst(':', OptionalScoreText(b.score), OptionalScoreText(b'.score), s, t);
    SplitAtFirst(':', StatusText(status), StatusText(status'), ScoreText(score), ScoreText(score'));
    ScoreTextInjective(score, score');
  }

  /** Equal keys come from the same user, goal, kind of alert, anchor, last notified status and score, and metrics. */
  lemma KeyDetermines(d: Decision, user: string, goal: string, b: Baseline, status: Status, score: int,
                      d': Decision, user': string, goal': string, b': Baseline, status': Status, score': int)
    requires NoColon(user) && NoColon(goal) && NoColon(user') && NoColon(goal')
    requires TimesAreRepresentable(b) && TimesAreRepresentable(b')
    requires AlertOccurrenceKey(d, user, goal, b, status, score)
             == AlertOccurrenceKey(d', user', goal', b', status', score')
    ensures d == d' && user == user' && goal == goal' && Anchor(d, b) == Anchor(d', b')
    ensures b.status == b'.status && b.score == b'.score && status == status' && score == score'
  {
    var k, k' := KeyTail(b, status, score), KeyTail(b', status', score');
    var a, a' := AnchorText(Anchor(d, b)), AnchorText(Anchor(d', b'));
    SplitAtFirst(':', TypeText(d), TypeText(d'), user + ":" + (goal + ":" + (a + ":" + k)),
                 user' + ":" + (goal' + ":" + (a' + ":" + k')));
    assert |TypeText(Risk)| == 10 && |TypeText(Recovery)| == 13;
    SplitAtFirst(':', user, user', goal + ":" + (a + ":" + k), goal' + ":" + (a' + ":" + k'));
    SplitAtFirst(':', goal, goal', a + ":" + k, a' + ":" + k');
    AnchorSplits(Anchor(d, b), Anchor(d', b'), k, k');
    TailDetermines(b, status, score, b', status', score');
  }

  // ----- the weekly schedule -----

  /** A local date and hour; the weekday is the calendar's. */
  datatype Local = Local(date: Date, hour: nat)

  predicate IsLocal(l: Local) {
    IsDate(l.date) && 1970 <= l.date.year < 10000 && l.hour < 24
  }

  function LocalWeekday(l: Local): nat
    requires IsLocal(l)
  {
    Weekday(DayNumber(l.date))
  }

  lemma LateEnough(d: Date)
    requires IsDate(d) && d.year >= 1970
    ensures DayNumber(d) >= 719528
  {
    if d.year > 1970 { YearsAreOrdered(1970, d.year); }
  }

  /** `Date.UTC(year, month - 1, date - weekday)`: the day that many days earlier, whatever month it falls in. */
  function WeekStart(l: Local): Date
    requires IsLocal(l)
  {
    LateEnough(l.date);
    DateOf(DayNumber(l.date) - LocalWeekday(l))
  }

  function WeekKey(l: Local): string
    requires IsLocal(l)
  {
    IsoDate(WeekStart(l))
  }

  predicate DueOn(dayNumber: nat, localHour: nat, day: nat, hour: nat) {
    Weekday(dayNumber) > day || (Weekday(dayNumber) == day && localHour >= hour)
  }

  predicate WeeklyDue(l: Local, day: nat, hour: nat)
    requires IsLocal(l)
  {
    DueOn(DayNumber(l.date), l.hour, day, hour)
  }

  /** Weeks run from Sunday to Saturday. */
  function WeekOf(l: Local): nat
    requires IsLocal(l)
  {
    (DayNumber(l.date) + 6) / 7
  }

  lemma SundayBefore(n: nat)
    requires n >= 7
    ensures n - Weekday(n) == 7 * ((n + 6) / 7) - 6 && Weekday(n - Weekday(n)) == 0
  {
  }

  lemma YearsFollowDays(a: Date, b: Date)
    requires IsDate(a) && IsDate(b) && DayNumber(a) <= DayNumber(b)
    ensures a.year <= b.year
  {
    if b.year < a.year { CountIsOrdered(b, a); }
  }

  lemma SundayStart(n: nat, d: Date)
    requires n >= 7 && d == DateOf(n - Weekday(n))
    ensures DayNumber(d) == 7 * ((n + 6) / 7) - 6 && DayNumber(d) <= n && Weekday(DayNumber(d)) == 0
  {
    SundayBefore(n);
    DateOfCounts(n - Weekday(n));
  }

  lemma WeekStartIsSunday(l: Local)
    requires IsLocal(l)
    ensures WeekStart(l).year < 10000 && IsDate(WeekStart(l))
    ensures DayNumber(WeekStart(l)) == 7 * WeekOf(l) - 6 && Weekday(DayNumber(WeekStart(l))) == 0
  {
    LateEnough(l.date);
    SundayStart(DayNumber(l.date), WeekStart(l));
    YearsFollowDays(WeekStart(l), l.date);
  }

  lemma SameKeySameStart(a: Local, b: Local)
    requires IsLocal(a) && IsLocal(b) && WeekKey(a) == WeekKey(b)
    ensures WeekOf(a) == WeekOf(b)
  {
    WeekStartIsSunday(a);
    WeekStartIsSunday(b);
    IsoDateInjective(WeekStart(a), WeekStart(b));
  }

  lemma SameWeekSameStart(a: Local, b: Local)
    requires IsLocal(a) && IsLocal(b) && WeekOf(a) == WeekOf(b)
    ensures WeekStart(a) == WeekStart(b)
  {
    WeekStartIsSunday(a);
    WeekStartIsSunday(b);
    DayNumberNames(WeekStart(a));
    DayNumberNames(WeekStart(b));
  }

  /** Two local dates have the same key exactly when they lie in the same week, across months, years and leap days. */
  lemma SameKeySameWeek(a: Local, b: Local)
    requires IsLocal(a) && IsLocal(b)
    ensures WeekKey(a) == WeekKey(b) <==> WeekOf(a) == WeekOf(b)
  {
    if WeekOf(a) == WeekOf(b) {
      SameWeekSameStart(a, b);
    } else if WeekKey(a) == WeekKey(b) {
      SameKeySameStart(a, b);
    }
  }

  predicate NotEarlier(a: Local, b: Local)
    requires IsLocal(a) && IsLocal(b)
  {
    DayNumber(a.date) < DayNumber(b.date) || (a.date == b.date && a.hour <= b.hour)
  }

  lemma DueLaterInTheWeek(m: nat, h: nat, n: nat, k: nat, day: nat, hour: nat)
    requires m < n || (m == n && h <= k)
    requires (m + 6) / 7 == (n + 6) / 7 && DueOn(m, h, day, hour)
    ensures DueOn(n, k, day, hour)
  {
    assert Weekday(n) - Weekday(m) == n - m;
  }

  /** Once the weekly summary is due it stays due for every later local day and hour of that week. */
  lemma DueStaysDue(a: Local, b: Local, day: nat, hour: nat)
    requires IsLocal(a) && IsLocal(b) && NotEarlier(a, b) && WeekOf(a) == WeekOf(b)
    requires WeeklyDue(a, day, hour)
    ensures WeeklyDue(b, day, hour)
  {
    DueLaterInTheWeek(DayNumber(a.date), a.hour, DayNumber(b.date), b.hour, day, hour);
  }
}
