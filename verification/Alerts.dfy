/**
 The readiness alert state machine. A run is a list of evaluations; each is computed from the
 rows left by the ones before it, and may stop short at any point where the process can die.
 */
module Alerts {
  import opened Wrappers
  import opened Calendar
  import opened Text
  import opened StabilityEngine
  import opened AlertRules

  datatype Subject = Subject(user: string, goal: string)

  datatype Preferences = Preferences(weekly: bool, risk: bool, day: nat, hour: nat)

  datatype Row = Row(observedStatus: Status, observedScore: int, notified: Baseline, weeklyAt: Option<nat>,
                     weeklyKey: Option<string>)

  datatype Job = Weekly(subject: Subject, week: string) | Alert(decision: Decision, subject: Subject)

  /** The alert rows by user and goal, and the queued jobs by dedupe key. */
  datatype World = World(rows: map<Subject, Row>, jobs: map<string, Job>)

  /** How far an evaluation got before the process died, if it did. */
  datatype Reached = Computed | WeeklyQueued | AlertQueued | Saved

  datatype Evaluation = Evaluation(subject: Subject, prefs: Preferences, now: nat, local: Local, score: int,
                                   reached: Reached)

  predicate IsEvaluation(e: Evaluation) {
    0 <= e.score <= 100 && IsLocal(e.local) && InFourDigitYears(e.now) && (e.prefs.weekly || e.prefs.risk)
    && NoColon(e.subject.user) && NoColon(e.subject.goal)
  }

  // ----- one evaluation -----

  function Notified(w: World, s: Subject): Baseline {
    if s in w.rows then w.rows[s].notified else NOTHING_NOTIFIED
  }

  function WeeklyKeySaved(w: World, s: Subject): Option<string> {
    if s in w.rows then w.rows[s].weeklyKey else None
  }

  function WeeklyAtSaved(w: World, s: Subject): Option<nat> {
    if s in w.rows then w.rows[s].weeklyAt else None
  }

  function WeeklyDedupeKey(s: Subject, week: string): string {
    "weekly" + ":" + (s.user + ":" + (s.goal + ":" + week))
  }

  predicate SendsWeekly(w: World, e: Evaluation)
    requires IsLocal(e.local)
  {
    e.prefs.weekly && WeeklyDue(e.local, e.prefs.day, e.prefs.hour)
        && WeeklyKeySaved(w, e.subject) != Some(WeekKey(e.local))
  }

  function AlertDecided(w: World, e: Evaluation): Option<Decision> {
    if e.prefs.risk then RiskDecision(StatusOf(e.score), e.score, Notified(w, e.subject), e.now) else None
  }

  function AlertKey(d: Decision, b: Baseline, e: Evaluation): string {
    AlertOccurrenceKey(d, e.subject.user, e.subject.goal, b, StatusOf(e.score), e.score)
  }

  function NotifiedAfter(w: World, e: Evaluation): Baseline {
    var b := Notified(w, e.subject);
    match AlertDecided(w, e)
    case Some(Risk) => Baseline(Some(StatusOf(e.score)), Some(e.score), Some(e.now), b.recoveryAt)
    case Some(Recovery) => Baseline(Some(StatusOf(e.score)), Some(e.score), b.riskAt, Some(e.now))
    case None =>
      if e.prefs.risk && e.subject !in w.rows && StatusOf(e.score).Stable? then
        b.(status := Some(Stable), score := Some(e.score))
      else b
  }

  function RowAfter(w: World, e: Evaluation): Row
    requires IsLocal(e.local)
  {
    Row(StatusOf(e.score), e.score, NotifiedAfter(w, e),
        if SendsWeekly(w, e) then Some(e.now) else WeeklyAtSaved(w, e.subject),
        if SendsWeekly(w, e) then Some(WeekKey(e.local)) else WeeklyKeySaved(w, e.subject))
  }

  /** The queue accepts a dedupe key once. */
  function Queue(jobs: map<string, Job>, key: string, job: Job): map<string, Job> {
    if key in jobs then jobs else jobs[key := job]
  }

  function WeeklyJobs(w: World, e: Evaluation): map<string, Job>
    requires IsLocal(e.local)
  {
    var week := WeekKey(e.local);
    if SendsWeekly(w, e) then Queue(w.jobs, WeeklyDedupeKey(e.subject, week), Weekly(e.subject, week)) else w.jobs
  }

  function WithAlert(jobs: map<string, Job>, decided: Option<Decision>, b: Baseline, e: Evaluation): map<string, Job> {
    if decided.Some? then Queue(jobs, AlertKey(decided.value, b, e), Alert(decided.value, e.subject)) else jobs
  }

  function AllJobs(w: World, e: Evaluation): map<string, Job>
    requires IsLocal(e.local)
  {
    WithAlert(WeeklyJobs(w, e), AlertDecided(w, e), Notified(w, e.subject), e)
  }

  function Step(w: World, e: Evaluation): World
    requires IsLocal(e.local)
  {
    match e.reached
    case Computed => w
    case WeeklyQueued => w.(jobs := WeeklyJobs(w, e))
    case AlertQueued => w.(jobs := AllJobs(w, e))
    case Saved => World(w.rows[e.subject := RowAfter(w, e)], AllJobs(w, e))
  }

  // ----- runs -----

  const NO_WORLD := World(map[], map[])

  /** Evaluations of one user and goal happen at strictly increasing times. */
  predicate IsRun(es: seq<Evaluation>) {
    && (forall i | 0 <= i < |es| :: IsEvaluation(es[i]))
    && (forall i, j | 0 <= i < j < |es| && es[i].subject == es[j].subject :: es[i].now < es[j].now)
  }

  function After(es: seq<Evaluation>): World
    requires IsRun(es)
  {
    if es == [] then NO_WORLD else Step(After(es[..|es| - 1]), es[|es| - 1])
  }

  /** The world in which evaluation `i` starts. */
  function Before(es: seq<Evaluation>, i: nat): World
    requires IsRun(es) && i <= |es|
  {
    After(es[..i])
  }

  function NotifiedBefore(es: seq<Evaluation>, i: nat, s: Subject): Baseline
    requires IsRun(es) && i <= |es|
  {
    Notified(Before(es, i), s)
  }

  function DecidedAt(es: seq<Evaluation>, i: nat): Option<Decision>
    requires IsRun(es) && i < |es|
  {
    AlertDecided(Before(es, i), es[i])
  }

  function KeyAt(es: seq<Evaluation>, i: nat): string
    requires IsRun(es) && i < |es| && DecidedAt(es, i).Some?
  {
    AlertKey(DecidedAt(es, i).value, NotifiedBefore(es, i, es[i].subject), es[i])
  }

  predicate SavedAs(es: seq<Evaluation>, i: nat, s: Subject, d: Decision)
    requires IsRun(es) && i < |es|
  {
    es[i].subject == s && es[i].reached.Saved? && DecidedAt(es, i) == Some(d)
  }

  lemma BeforeSteps(es: seq<Evaluation>, i: nat)
    requires IsRun(es) && i < |es|
    ensures Before(es, i + 1) == Step(Before(es, i), es[i])
  {
    assert es[..i + 1][..i] == es[..i];
  }

  lemma NotifiedSteps(es: seq<Evaluation>, i: nat, s: Subject)
    requires IsRun(es) && i < |es|
    ensures NotifiedBefore(es, i + 1, s)
            == (if es[i].subject == s && es[i].reached.Saved? then NotifiedAfter(Before(es, i), es[i])
                else NotifiedBefore(es, i, s))
  {
    BeforeSteps(es, i);
  }

  // ----- what every baseline satisfies -----

  function Stamp(at: Option<nat>): int {
    if at.Some? then at.value else -1
  }

  predicate BaselineOk(b: Baseline) {
    && (b.status.Some? <==> b.score.Some?)
    && (b.status.Some? ==> 0 <= b.score.value <= 100 && b.status.value == StatusOf(b.score.value))
    && (b.status.None? ==> b == NOTHING_NOTIFIED)
    && (b.status.Some? && !b.status.value.Stable? ==> Stamp(b.recoveryAt) < Stamp(b.riskAt))
  }

  predicate Until(b: Baseline, t: int) {
    Stamp(b.riskAt) < t && Stamp(b.recoveryAt) < t && TimesAreRepresentable(b)
  }

  predicate AllBefore(es: seq<Evaluation>, i: nat, s: Subject, t: int)
    requires i <= |es|
  {
    forall k | 0 <= k < i && es[k].subject == s :: es[k].now < t
  }

  /** Only a saved evaluation creates a row, and what was notified starts out empty. */
  predicate SubjectOk(w: World, s: Subject, t: int) {
    && BaselineOk(Notified(w, s)) && Until(Notified(w, s), t)
    && (s !in w.rows ==> Notified(w, s) == NOTHING_NOTIFIED)
  }

  lemma NotifiedAfterIsOk(w: World, e: Evaluation, t: int)
    requires IsEvaluation(e) && SubjectOk(w, e.subject, e.now) && e.now < t
    ensures BaselineOk(NotifiedAfter(w, e)) && Until(NotifiedAfter(w, e), t)
  {
  }

  lemma StepKeepsOk(w: World, e: Evaluation, s: Subject, t: int)
    requires IsEvaluation(e) && SubjectOk(w, s, if e.subject == s then e.now else t) && (e.subject == s ==> e.now < t)
    ensures SubjectOk(Step(w, e), s, t)
  {
    if e.subject == s { NotifiedAfterIsOk(w, e, t); }
  }

  lemma {:induction false} BaselinesAreOk(es: seq<Evaluation>, i: nat, s: Subject, t: nat)
    requires IsRun(es) && i <= |es| && AllBefore(es, i, s, t)
    ensures SubjectOk(Before(es, i), s, t)
    decreases i
  {
    if i == 0 {
    } else {
      var last := es[i - 1];
      BaselinesAreOk(es, i - 1, s, if last.subject == s then last.now else t);
      BeforeSteps(es, i - 1);
      StepKeepsOk(Before(es, i - 1), last, s, t);
    }
  }

  lemma BaselineIsOk(es: seq<Evaluation>, i: nat)
    requires IsRun(es) && i < |es|
    ensures SubjectOk(Before(es, i), es[i].subject, es[i].now)
  {
    BaselinesAreOk(es, i, es[i].subject, es[i].now);
  }

  // ----- baselines never come back -----

  /**
   `c` was saved after `b`: by a later recovery, by a later risk alert (at a lower score once there was a
   recovery), or as the first baseline.
   */
  predicate Outdated(b: Baseline, c: Baseline) {
    && Stamp(b.riskAt) <= Stamp(c.riskAt)
    && (
         || (Stamp(b.recoveryAt) < Stamp(c.recoveryAt) && Stamp(b.riskAt) < Stamp(c.recoveryAt))
         || (b.recoveryAt == c.recoveryAt && Stamp(b.riskAt) < Stamp(c.riskAt)
             && (b.recoveryAt.Some? ==> LowerScore(b.score, c.score)))
         || (b.recoveryAt == c.recoveryAt && b.riskAt == c.riskAt && b.status.None? && c.status.Some?)
       )
  }

  predicate LowerScore(before: Option<int>, after: Option<int>) {
    before.Some? && after.Some? && after.value < before.value
  }

  predicate Evolves(b: Baseline, c: Baseline) {
    b == c || Outdated(b, c)
  }

  lemma EvolvesTransitively(a: Baseline, b: Baseline, c: Baseline)
    requires Evolves(a, b) && Evolves(b, c) && BaselineOk(a) && BaselineOk(b) && BaselineOk(c)
    ensures Evolves(a, c)
    ensures Outdated(a, b) || Outdated(b, c) ==> Outdated(a, c)
  {
  }

  lemma EvaluationEvolves(es: seq<Evaluation>, i: nat, s: Subject)
    requires IsRun(es) && i < |es|
    ensures Evolves(NotifiedBefore(es, i, s), NotifiedBefore(es, i + 1, s))
    ensures es[i].subject == s && es[i].reached.Saved? && DecidedAt(es, i).Some? ==>
        Outdated(NotifiedBefore(es, i, s), NotifiedBefore(es, i + 1, s))
  {
    BaselineIsOk(es, i);
    NotifiedSteps(es, i, s);
  }

  function BeyondAll(es: seq<Evaluation>, i: nat): (t: nat)
    requires i <= |es|
    ensures forall k | 0 <= k < i :: es[k].now < t
  {
    if i == 0 then 0
    else
      var t := BeyondAll(es, i - 1);
      if t < es[i - 1].now + 1 then es[i - 1].now + 1 else t
  }

  lemma AlwaysOk(es: seq<Evaluation>, i: nat, s: Subject)
    requires IsRun(es) && i <= |es|
    ensures BaselineOk(NotifiedBefore(es, i, s))
  {
    BaselinesAreOk(es, i, s, BeyondAll(es, i));
  }

  lemma {:induction false} RunEvolves(es: seq<Evaluation>, i: nat, j: nat, s: Subject)
    requires IsRun(es) && i <= j <= |es|
    ensures BaselineOk(NotifiedBefore(es, i, s)) && BaselineOk(NotifiedBefore(es, j, s))
    ensures Evolves(NotifiedBefore(es, i, s), NotifiedBefore(es, j, s))
    decreases j
  {
    AlwaysOk(es, i, s);
    AlwaysOk(es, j, s);
    if i == j {
    } else {
      RunEvolves(es, i, j - 1, s);
      EvaluationEvolves(es, j - 1, s);
      EvolvesTransitively(NotifiedBefore(es, i, s), NotifiedBefore(es, j - 1, s), NotifiedBefore(es, j, s));
    }
  }

  lemma SameKeyIsNotOutdated(d: Decision, b: Baseline, c: Baseline)
    requires BaselineOk(b) && BaselineOk(c) && Anchor(d, b) == Anchor(d, c) && b.status == c.status
    requires b.score == c.score
    requires d.Recovery? ==> b.status.Some? && !b.status.value.Stable?
    ensures !Outdated(b, c)
  {
  }

  /**
   Two evaluations with the same dedupe key are of one user and goal, decide the same for the
   same metrics, start from the same last notification, and the earlier one was lost. So no
   key of a saved alert is ever used again, by any user or goal.
   */
  lemma EqualKeysAreOneAlert(es: seq<Evaluation>, i: nat, j: nat)
    requires IsRun(es) && i < j < |es| && DecidedAt(es, i).Some? && DecidedAt(es, j).Some?
    requires KeyAt(es, i) == KeyAt(es, j)
    ensures es[i].subject == es[j].subject && DecidedAt(es, i) == DecidedAt(es, j) && es[i].score == es[j].score
    ensures NotifiedBefore(es, i, es[i].subject) == NotifiedBefore(es, j, es[i].subject)
    ensures !es[i].reached.Saved?
  {
    var x, y := es[i], es[j];
    var b, c := NotifiedBefore(es, i, x.subject), NotifiedBefore(es, j, y.subject);
    BaselineIsOk(es, i);
    BaselineIsOk(es, j);
    KeyDetermines(DecidedAt(es, i).value, x.subject.user, x.subject.goal, b, StatusOf(x.score), x.score,
                  DecidedAt(es, j).value, y.subject.user, y.subject.goal, c, StatusOf(y.score), y.score);
    assert x.subject == y.subject;
    RunEvolves(es, i + 1, j, x.subject);
    EvaluationEvolves(es, i, x.subject);
    EvolvesTransitively(b, NotifiedBefore(es, i + 1, x.subject), c);
    SameKeyIsNotOutdated(DecidedAt(es, i).value, b, c);
  }

  lemma DecisionKeeps(status: Status, score: int, b: Baseline, now: nat, later: nat)
    requires now <= later && RiskDecision(status, score, b, now).Some?
    ensures RiskDecision(status, score, b, later) == RiskDecision(status, score, b, now)
  {
  }

  predicate NothingSaved(es: seq<Evaluation>, i: nat, j: nat, s: Subject)
    requires i <= j <= |es|
  {
    forall k | i <= k < j && es[k].subject == s :: !es[k].reached.Saved?
  }

  lemma {:induction false} UnsavedKeepsNotified(es: seq<Evaluation>, i: nat, j: nat, s: Subject)
    requires IsRun(es) && i <= j <= |es| && NothingSaved(es, i, j, s)
    ensures NotifiedBefore(es, j, s) == NotifiedBefore(es, i, s)
    decreases j
  {
    if i == j {
    } else {
      UnsavedKeepsNotified(es, i, j - 1, s);
      NotifiedSteps(es, j - 1, s);
    }
  }

  /** After any number of lost saves, evaluating the same metrics again decides the same and repeats the key. */
  lemma RetryRepeatsKey(es: seq<Evaluation>, i: nat, j: nat)
    requires IsRun(es) && i < j < |es| && es[i].subject == es[j].subject && es[i].score == es[j].score
    requires es[j].prefs.risk && DecidedAt(es, i).Some? && NothingSaved(es, i, j, es[i].subject)
    ensures DecidedAt(es, j) == DecidedAt(es, i) && KeyAt(es, j) == KeyAt(es, i)
  {
    UnsavedKeepsNotified(es, i, j, es[i].subject);
    DecisionKeeps(StatusOf(es[i].score), es[i].score, NotifiedBefore(es, i, es[i].subject), es[i].now, es[j].now);
  }

  // ----- how often -----

  /** After a saved risk alert no further one is decided, saved or not, for 24 hours. */
  lemma RiskAlertsAreSpaced(es: seq<Evaluation>, i: nat, j: nat)
    requires IsRun(es) && i < j < |es| && es[j].subject == es[i].subject
    requires SavedAs(es, i, es[i].subject, Risk) && DecidedAt(es, j) == Some(Risk)
    ensures es[j].now - es[i].now >= RISK_COOLDOWN_MS
  {
    var s := es[i].subject;
    NotifiedSteps(es, i, s);
    RunEvolves(es, i + 1, j, s);
  }

  predicate NoneSaved(es: seq<Evaluation>, i: nat, j: nat, s: Subject, d: Decision)
    requires IsRun(es) && i <= j <= |es|
  {
    forall k | i <= k < j :: !SavedAs(es, k, s, d)
  }

  lemma RiskTimeStep(es: seq<Evaluation>, k: nat, s: Subject)
    requires IsRun(es) && k < |es| && !SavedAs(es, k, s, Risk)
    ensures NotifiedBefore(es, k + 1, s).riskAt == NotifiedBefore(es, k, s).riskAt
  {
    NotifiedSteps(es, k, s);
  }

  lemma {:induction false} RiskTimeStays(es: seq<Evaluation>, i: nat, j: nat, s: Subject)
    requires IsRun(es) && i <= j <= |es| && NoneSaved(es, i, j, s, Risk)
    ensures NotifiedBefore(es, j, s).riskAt == NotifiedBefore(es, i, s).riskAt
    decreases j
  {
    if i == j {
    } else {
      RiskTimeStays(es, i, j - 1, s);
      assert !SavedAs(es, j - 1, s, Risk);
      RiskTimeStep(es, j - 1, s);
    }
  }

  /** What makes an unstable score worth a risk alert, the cool-down apart. */
  predicate IsWorse(score: int, b: Baseline) {
    || b.status.None? || b.score.None?
    || Severity(StatusOf(score)) > Severity(b.status.value)
    || score <= b.score.value - RISK_SCORE_DROP
  }

  /**
   Exactly when a second risk alert is decided within 24 hours of one: no risk alert was saved from the first
   one on, and the new score is unstable and worse than the last saved baseline.
   */
  lemma SecondRiskWithinADay(es: seq<Evaluation>, i: nat, j: nat)
    requires IsRun(es) && i < j < |es| && es[j].subject == es[i].subject && es[j].prefs.risk
    requires DecidedAt(es, i) == Some(Risk) && es[j].now - es[i].now < RISK_COOLDOWN_MS
    ensures var s := es[i].subject;
            DecidedAt(es, j) == Some(Risk)
            <==> NoneSaved(es, i, j, s, Risk) && !StatusOf(es[j].score).Stable?
                 && IsWorse(es[j].score, NotifiedBefore(es, j, s))
  {
    var s := es[i].subject;
    if NoneSaved(es, i, j, s, Risk) {
      RiskTimeStays(es, i, j, s);
    } else {
      var k :| i <= k < j && SavedAs(es, k, s, Risk);
      if DecidedAt(es, j) == Some(Risk) { RiskAlertsAreSpaced(es, k, j); }
    }
  }

  /** In particular, when nothing is saved in between: exactly when the first save was lost and the score is worse. */
  lemma LostSaveBreaksSpacing(es: seq<Evaluation>, i: nat, j: nat)
    requires IsRun(es) && i < j < |es| && es[j].subject == es[i].subject && es[j].prefs.risk
    requires DecidedAt(es, i) == Some(Risk) && es[j].now - es[i].now < RISK_COOLDOWN_MS
    requires NothingSaved(es, i + 1, j, es[i].subject)
    ensures DecidedAt(es, j) == Some(Risk)
            <==> !es[i].reached.Saved? && !StatusOf(es[j].score).Stable?
                 && IsWorse(es[j].score, NotifiedBefore(es, i, es[i].subject))
  {
    var s := es[i].subject;
    SecondRiskWithinADay(es, i, j);
    if es[i].reached.Saved? {
      assert SavedAs(es, i, s, Risk);
    } else {
      UnsavedKeepsNotified(es, i, j, s);
      assert NoneSaved(es, i, j, s, Risk);
    }
  }

  /** Two alerts have one key exactly when they are of one user and goal, kind, score and baseline. */
  lemma KeysAgree(es: seq<Evaluation>, i: nat, j: nat)
    requires IsRun(es) && i < j < |es| && DecidedAt(es, i).Some? && DecidedAt(es, j).Some?
    ensures KeyAt(es, i) == KeyAt(es, j)
            <==> es[i].subject == es[j].subject && DecidedAt(es, i) == DecidedAt(es, j) && es[i].score == es[j].score
                 && NotifiedBefore(es, i, es[i].subject) == NotifiedBefore(es, j, es[j].subject)
  {
    if KeyAt(es, i) == KeyAt(es, j) { EqualKeysAreOneAlert(es, i, j); }
  }

  /** While nothing is saved, two alerts of one kind are told apart by their scores alone. */
  lemma LostAlertsDifferByScore(es: seq<Evaluation>, i: nat, j: nat)
    requires IsRun(es) && i < j < |es| && es[i].subject == es[j].subject && NothingSaved(es, i, j, es[i].subject)
    requires DecidedAt(es, i).Some? && DecidedAt(es, i) == DecidedAt(es, j)
    ensures KeyAt(es, i) == KeyAt(es, j) <==> es[i].score == es[j].score
  {
    UnsavedKeepsNotified(es, i, j, es[i].subject);
    KeysAgree(es, i, j);
  }

  // ----- runs that show what a lost save allows -----

  const SAMPLE := Subject("u", "g")

  /** An evaluation of one subject in January 1970. */
  function Sample(now: nat, score: int, reached: Reached): Evaluation {
    Evaluation(SAMPLE, Preferences(false, true, 0, 0), now, Local(Date(1970, 1, 1), 0), score, reached)
  }

  predicate IsSample(e: Evaluation) {
    0 <= e.score <= 100 && e.now < 31 * MS_PER_DAY && e == Sample(e.now, e.score, e.reached)
  }

  lemma JanuaryHasFourDigits(ms: nat)
    requires ms < 31 * MS_PER_DAY
    ensures InFourDigitYears(ms)
  {
    EpochIsThursday();
    var date := Date(1970, 1, 1 + ms / MS_PER_DAY);
    DayNumberNames(date);
    assert DayNumber(date) == DayNumber(Date(1970, 1, 1)) + ms / MS_PER_DAY;
  }

  lemma SamplesAreARun(es: seq<Evaluation>)
    requires forall k | 0 <= k < |es| :: IsSample(es[k])
    requires forall i, j | 0 <= i < j < |es| :: es[i].now < es[j].now
    ensures IsRun(es)
  {
    forall k | 0 <= k < |es| ensures IsEvaluation(es[k]) { JanuaryHasFourDigits(es[k].now); }
  }

  lemma FirstIsRisk(es: seq<Evaluation>)
    requires IsRun(es) && |es| > 0 && es[0].prefs.risk && !StatusOf(es[0].score).Stable?
    ensures DecidedAt(es, 0) == Some(Risk) && NotifiedBefore(es, 0, es[0].subject) == NOTHING_NOTIFIED
  {
  }

  /** Two different risk alerts one hour apart. */
  lemma TwoRisksInAnHour() returns (es: seq<Evaluation>)
    ensures IsRun(es) && |es| == 2 && es[0].subject == es[1].subject && es[1].now - es[0].now == 3_600_000
    ensures DecidedAt(es, 0) == Some(Risk) && DecidedAt(es, 1) == Some(Risk) && KeyAt(es, 0) != KeyAt(es, 1)
  {
    es := [Sample(0, 60, AlertQueued), Sample(3_600_000, 50, AlertQueued)];
    SamplesAreARun(es);
    FirstIsRisk(es);
    LostSaveBreaksSpacing(es, 0, 1);
    LostAlertsDifferByScore(es, 0, 1);
  }

  lemma CalmStep(es: seq<Evaluation>, j: nat, s: Subject)
    requires IsRun(es) && j < |es| && NotifiedBefore(es, j, s).status == Some(Stable) && !SavedAs(es, j, s, Risk)
    ensures NotifiedBefore(es, j + 1, s).status == Some(Stable)
  {
    NotifiedSteps(es, j, s);
  }

  lemma {:induction false} StaysCalm(es: seq<Evaluation>, i: nat, j: nat, s: Subject)
    requires IsRun(es) && i <= j <= |es| && NotifiedBefore(es, i, s).status == Some(Stable)
    requires NoneSaved(es, i, j, s, Risk)
    ensures NotifiedBefore(es, j, s).status == Some(Stable)
    decreases j
  {
    if i == j {
    } else {
      StaysCalm(es, i, j - 1, s);
      CalmStep(es, j - 1, s);
    }
  }

  /** Between a saved recovery and the next recovery there is a saved risk alert. */
  lemma RiskBetweenRecoveries(es: seq<Evaluation>, i: nat, j: nat)
    requires IsRun(es) && i < j < |es| && es[j].subject == es[i].subject
    requires SavedAs(es, i, es[i].subject, Recovery) && DecidedAt(es, j) == Some(Recovery)
    ensures exists k | i < k < j :: SavedAs(es, k, es[i].subject, Risk)
  {
    NotifiedSteps(es, i, es[i].subject);
    if NoneSaved(es, i + 1, j, es[i].subject, Risk) {
      StaysCalm(es, i + 1, j, es[i].subject);
    }
  }

  predicate IsAlarmed(b: Baseline) {
    b.status.Some? && !b.status.value.Stable?
  }

  lemma AlarmedStep(es: seq<Evaluation>, j: nat, s: Subject)
    requires IsRun(es) && j < |es| && IsAlarmed(NotifiedBefore(es, j, s)) && !SavedAs(es, j, s, Recovery)
    ensures IsAlarmed(NotifiedBefore(es, j + 1, s))
  {
    NotifiedSteps(es, j, s);
  }

  lemma {:induction false} StaysAlarmed(es: seq<Evaluation>, i: nat, j: nat, s: Subject)
    requires IsRun(es) && i <= j <= |es| && IsAlarmed(NotifiedBefore(es, i, s))
    requires NoneSaved(es, i, j, s, Recovery)
    ensures IsAlarmed(NotifiedBefore(es, j, s))
    decreases j
  {
    if i == j {
    } else {
      StaysAlarmed(es, i, j - 1, s);
      AlarmedStep(es, j - 1, s);
    }
  }

  lemma RecoveryDecided(es: seq<Evaluation>, j: nat)
    requires IsRun(es) && j < |es| && es[j].prefs.risk
    ensures DecidedAt(es, j) == Some(Recovery)
            <==> IsAlarmed(NotifiedBefore(es, j, es[j].subject)) && StatusOf(es[j].score).Stable?
  {
  }

  lemma SavedRiskAlarms(es: seq<Evaluation>, i: nat, s: Subject)
    requires IsRun(es) && i < |es| && SavedAs(es, i, s, Risk)
    ensures IsAlarmed(NotifiedBefore(es, i + 1, s))
  {
    NotifiedSteps(es, i, s);
  }

  /**
   After a saved risk alert the first stable evaluation, and every one until a recovery is saved, decides a
   recovery.
   */
  lemma RecoveryFollowsRisk(es: seq<Evaluation>, i: nat, j: nat)
    requires IsRun(es) && i < j < |es| && es[j].subject == es[i].subject && SavedAs(es, i, es[i].subject, Risk)
    requires es[j].prefs.risk && StatusOf(es[j].score).Stable?
    requires NoneSaved(es, i + 1, j, es[i].subject, Recovery)
    ensures DecidedAt(es, j) == Some(Recovery)
  {
    SavedRiskAlarms(es, i, es[i].subject);
    StaysAlarmed(es, i + 1, j, es[i].subject);
    RecoveryDecided(es, j);
  }

  lemma SavedRecoverySilences(es: seq<Evaluation>, i: nat, k: nat, j: nat)
    requires IsRun(es) && i <= k < j < |es| && es[j].subject == es[i].subject
    requires NoneSaved(es, i, j, es[i].subject, Risk) && SavedAs(es, k, es[i].subject, Recovery)
    ensures DecidedAt(es, j) != Some(Recovery)
  {
    if DecidedAt(es, j) == Some(Recovery) { RiskBetweenRecoveries(es, k, j); }
  }

  /** Exactly when a second recovery is decided without a saved risk alert since one: none of the two was saved. */
  lemma SecondRecovery(es: seq<Evaluation>, i: nat, j: nat)
    requires IsRun(es) && i < j < |es| && es[j].subject == es[i].subject && es[j].prefs.risk
    requires DecidedAt(es, i) == Some(Recovery) && NoneSaved(es, i, j, es[i].subject, Risk)
    ensures DecidedAt(es, j) == Some(Recovery)
            <==> NoneSaved(es, i, j, es[i].subject, Recovery) && StatusOf(es[j].score).Stable?
  {
    var s := es[i].subject;
    RecoveryDecided(es, j);
    if NoneSaved(es, i, j, s, Recovery) {
      RecoveryDecided(es, i);
      StaysAlarmed(es, i, j, s);
    } else {
      var k :| i <= k < j && SavedAs(es, k, s, Recovery);
      SavedRecoverySilences(es, i, k, j);
    }
  }

  lemma LostRecoveryRepeats(es: seq<Evaluation>)
    requires IsRun(es) && |es| == 3 && es[0].subject == es[1].subject == es[2].subject
    requires es[0].prefs.risk && es[1].prefs.risk && es[2].prefs.risk && es[0].reached.Saved? && !es[1].reached.Saved?
    requires !StatusOf(es[0].score).Stable? && StatusOf(es[1].score).Stable? && StatusOf(es[2].score).Stable?
    ensures DecidedAt(es, 0) == Some(Risk) && DecidedAt(es, 1) == Some(Recovery) && DecidedAt(es, 2) == Some(Recovery)
  {
    FirstIsRisk(es);
    RecoveryFollowsRisk(es, 0, 1);
    RecoveryFollowsRisk(es, 0, 2);
  }

  /** Two different recoveries after one risk alert. */
  lemma TwoRecoveriesInARow() returns (es: seq<Evaluation>)
    ensures IsRun(es) && |es| == 3 && es[0].subject == es[1].subject == es[2].subject
    ensures DecidedAt(es, 0) == Some(Risk)
    ensures DecidedAt(es, 1) == Some(Recovery) && DecidedAt(es, 2) == Some(Recovery) && KeyAt(es, 1) != KeyAt(es, 2)
  {
    es := [Sample(0, 60, Saved), Sample(1, 80, AlertQueued), Sample(2, 90, AlertQueued)];
    SamplesAreARun(es);
    LostRecoveryRepeats(es);
    LostAlertsDifferByScore(es, 1, 2);
  }

  /**
   After a saved recovery the first evaluation that is not stable, and every one until a risk alert is saved,
   decides one, once the cool-down has passed.
   */
  lemma RelapseIsReported(es: seq<Evaluation>, i: nat, j: nat)
    requires IsRun(es) && i < j < |es| && es[j].subject == es[i].subject && SavedAs(es, i, es[i].subject, Recovery)
    requires es[j].prefs.risk && !StatusOf(es[j].score).Stable?
    requires NoneSaved(es, i + 1, j, es[i].subject, Risk)
    ensures DecidedAt(es, j) == Some(Risk)
            <==> es[j].now - Stamp(NotifiedBefore(es, j, es[j].subject).riskAt) >= RISK_COOLDOWN_MS
  {
    NotifiedSteps(es, i, es[i].subject);
    StaysCalm(es, i + 1, j, es[i].subject);
    AlwaysOk(es, i, es[i].subject);
    RunEvolves(es, i, j, es[i].subject);
  }

  function SavedRisks(es: seq<Evaluation>, i: nat, j: nat, s: Subject): nat
    requires IsRun(es) && i <= j <= |es|
    decreases j
  {
    if i == j then 0 else SavedRisks(es, i, j - 1, s) + (if SavedAs(es, j - 1, s, Risk) then 1 else 0)
  }

  /** How many more risk alerts can follow before a recovery. */
  function RisksLeft(b: Baseline): nat
    requires BaselineOk(b)
  {
    if b.status.None? || b.status.value.Stable? then 5
    else if b.score.value >= 55 then 4
    else if b.score.value >= 40 then 3
    else b.score.value / 15
  }

  lemma RiskUsesOne(es: seq<Evaluation>, i: nat, s: Subject)
    requires IsRun(es) && i < |es| && !SavedAs(es, i, s, Recovery)
    requires BaselineOk(NotifiedBefore(es, i, s)) && BaselineOk(NotifiedBefore(es, i + 1, s))
    ensures RisksLeft(NotifiedBefore(es, i + 1, s))
            + (if SavedAs(es, i, s, Risk) then 1 else 0) <= RisksLeft(NotifiedBefore(es, i, s))
  {
    NotifiedSteps(es, i, s);
    BaselineIsOk(es, i);
  }

  lemma {:induction false} RisksAreBudgeted(es: seq<Evaluation>, i: nat, j: nat, s: Subject)
    requires IsRun(es) && i <= j <= |es| && NoneSaved(es, i, j, s, Recovery)
    ensures BaselineOk(NotifiedBefore(es, i, s)) && BaselineOk(NotifiedBefore(es, j, s))
    ensures SavedRisks(es, i, j, s) + RisksLeft(NotifiedBefore(es, j, s)) <= RisksLeft(NotifiedBefore(es, i, s))
    decreases j
  {
    RunEvolves(es, i, j, s);
    if i == j {
    } else {
      RisksAreBudgeted(es, i, j - 1, s);
      assert !SavedAs(es, j - 1, s, Recovery);
      RiskUsesOne(es, j - 1, s);
    }
  }

  /** At most five risk alerts are saved without a recovery between them. */
  lemma AtMostFiveRisks(es: seq<Evaluation>, i: nat, j: nat, s: Subject)
    requires IsRun(es) && i <= j <= |es| && NoneSaved(es, i, j, s, Recovery)
    ensures SavedRisks(es, i, j, s) <= 5
  {
    RisksAreBudgeted(es, i, j, s);
  }

  predicate QueuesRisk(es: seq<Evaluation>, k: nat, s: Subject)
    requires IsRun(es) && k < |es|
  {
    es[k].subject == s && (es[k].reached.AlertQueued? || es[k].reached.Saved?) && DecidedAt(es, k) == Some(Risk)
  }

  /** For each evaluation the key of the risk alert it queued for this subject, if it did. */
  function RiskMarks(es: seq<Evaluation>, s: Subject): (marks: seq<Option<string>>)
    requires IsRun(es)
    ensures |marks| == |es|
  {
    seq(|es|, k requires 0 <= k < |es| => if QueuesRisk(es, k, s) then Some(KeyAt(es, k)) else None)
  }

  function KeysIn(marks: seq<Option<string>>, i: nat, j: nat): set<string>
    requires i <= j <= |marks|
  {
    set k | i <= k < j && marks[k].Some? :: marks[k].value
  }

  /** The different risk alerts queued between two points of a run. */
  function RiskKeys(es: seq<Evaluation>, i: nat, j: nat, s: Subject): set<string>
    requires IsRun(es) && i <= j <= |es|
  {
    KeysIn(RiskMarks(es, s), i, j)
  }

  predicate AllDiffer(marks: seq<Option<string>>, i: nat, j: nat)
    requires i <= j <= |marks|
  {
    forall k, l | i <= k < l < j && marks[k].Some? :: marks[k] != marks[l]
  }

  lemma {:induction false} DifferentKeysCount(marks: seq<Option<string>>, i: nat, j: nat)
    requires i <= j <= |marks| && AllDiffer(marks, i, j) && forall k | i <= k < j :: marks[k].Some?
    ensures |KeysIn(marks, i, j)| == j - i
    decreases j
  {
    if i == j {
    } else {
      DifferentKeysCount(marks, i, j - 1);
      assert KeysIn(marks, i, j) == KeysIn(marks, i, j - 1) + {marks[j - 1].value};
    }
  }

  predicate LosesRisk(es: seq<Evaluation>, k: nat, s: Subject)
    requires IsRun(es) && k < |es|
  {
    es[k].subject == s && es[k].reached.AlertQueued? && DecidedAt(es, k) == Some(Risk)
  }

  /** Risk alerts whose save was lost are as many as their scores. */
  lemma LostRisksCount(es: seq<Evaluation>, i: nat, j: nat, s: Subject)
    requires IsRun(es) && i <= j <= |es| && forall k | i <= k < j :: LosesRisk(es, k, s)
    requires forall k, l | i <= k < l < j :: es[k].score != es[l].score
    ensures |RiskKeys(es, i, j, s)| == j - i
  {
    var marks := RiskMarks(es, s);
    forall k | i <= k < j ensures marks[k].Some? { assert LosesRisk(es, k, s); }
    forall k, l | i <= k < l < j && marks[k].Some? ensures marks[k] != marks[l] {
      assert LosesRisk(es, k, s) && LosesRisk(es, l, s);
      if marks[k] == marks[l] { EqualKeysAreOneAlert(es, k, l); }
    }
    DifferentKeysCount(marks, i, j);
  }

  // ----- when more than five different risk alerts can be queued -----

  /** The baseline after which no fifteen points are left to fall a second time. */
  predicate NearBottom(b: Baseline) {
    b.score.Some? && b.score.value < 20
  }

  predicate IsOrBelow(b: Baseline, c: Baseline) {
    c.score.Some? && (c == b || c.score.value < 5)
  }

  lemma LowStep(es: seq<Evaluation>, k: nat, s: Subject, b: Baseline)
    requires IsRun(es) && k < |es| && NearBottom(b) && !SavedAs(es, k, s, Recovery)
    requires IsOrBelow(b, NotifiedBefore(es, k, s))
    ensures IsOrBelow(b, NotifiedBefore(es, k + 1, s))
  {
    NotifiedSteps(es, k, s);
    AlwaysOk(es, k, s);
    BaselineIsOk(es, k);
  }

  lemma {:induction false} LowStays(es: seq<Evaluation>, i: nat, j: nat, s: Subject, b: Baseline)
    requires IsRun(es) && i <= j <= |es| && NearBottom(b) && NotifiedBefore(es, i, s) == b
    requires NoneSaved(es, i, j, s, Recovery)
    ensures IsOrBelow(b, NotifiedBefore(es, j, s))
    decreases j
  {
    if i == j {
    } else {
      LowStays(es, i, j - 1, s, b);
      assert !SavedAs(es, j - 1, s, Recovery);
      LowStep(es, j - 1, s, b);
    }
  }

  function LowKey(b: Baseline, s: Subject, score: int): string {
    AlertOccurrenceKey(Risk, s.user, s.goal, b, StatusOf(score), score)
  }

  function LowKeys(b: Baseline, s: Subject): set<string> {
    {LowKey(b, s, 0), LowKey(b, s, 1), LowKey(b, s, 2), LowKey(b, s, 3), LowKey(b, s, 4)}
  }

  lemma LowKeyIsOne(b: Baseline, s: Subject, score: int)
    requires 0 <= score < 5
    ensures LowKey(b, s, score) in LowKeys(b, s)
  {
    assert score == 0 || score == 1 || score == 2 || score == 3 || score == 4;
  }

  lemma LowDecision(b: Baseline, c: Baseline, score: int, t: nat)
    requires NearBottom(b) && IsOrBelow(b, c) && BaselineOk(c) && score >= 0
    requires RiskDecision(StatusOf(score), score, c, t) == Some(Risk)
    ensures c == b && score < 5
  {
  }

  lemma LowRisk(es: seq<Evaluation>, k: nat, s: Subject, b: Baseline)
    requires IsRun(es) && k < |es| && NearBottom(b) && IsOrBelow(b, NotifiedBefore(es, k, s))
    requires QueuesRisk(es, k, s)
    ensures KeyAt(es, k) in LowKeys(b, s)
  {
    AlwaysOk(es, k, s);
    LowDecision(b, NotifiedBefore(es, k, s), es[k].score, es[k].now);
    LowKeyIsOne(b, s, es[k].score);
  }

  lemma SubsetIsSmaller<T>(a: set<T>, b: set<T>)
    requires a <= b
    ensures |a| <= |b|
  {
    assert b == a + (b - a);
  }

  lemma FewLowKeys(es: seq<Evaluation>, i: nat, j: nat, s: Subject)
    requires IsRun(es) && i <= j <= |es| && NearBottom(NotifiedBefore(es, i, s))
    requires NoneSaved(es, i, j, s, Recovery)
    ensures |RiskKeys(es, i, j, s)| <= 5
  {
    var b := NotifiedBefore(es, i, s);
    forall key | key in RiskKeys(es, i, j, s) ensures key in LowKeys(b, s) {
      var k :| i <= k < j && RiskMarks(es, s)[k] == Some(key);
      LowStays(es, i, k, s, b);
      LowRisk(es, k, s, b);
    }
    SubsetIsSmaller(RiskKeys(es, i, j, s), LowKeys(b, s));
  }

  predicate PastCooldown(b: Baseline, t: nat) {
    b.riskAt.Some? ==> t - b.riskAt.value >= RISK_COOLDOWN_MS
  }

  /** There is time for six more evaluations, past the cool-down and within four-digit years. */
  ghost predicate HasTime(es: seq<Evaluation>, s: Subject, b: Baseline) {
    exists t: nat :: AllBefore(es, |es|, s, t) && PastCooldown(b, t) && InFourDigitYears(t + 5)
  }

  predicate Increasing(es: seq<Evaluation>, marks: seq<Option<string>>) {
    |es| == |marks|
    && forall k, l | 0 <= k < l < |es| && marks[k].Some? && marks[l].Some? :: es[k].now < es[l].now
  }

  lemma OneMoreMark(marks: seq<Option<string>>, i: nat, j: nat)
    requires i < j <= |marks|
    ensures |KeysIn(marks, i, j)| <= |KeysIn(marks, i, j - 1)| + (if marks[j - 1].Some? then 1 else 0)
    ensures |KeysIn(marks, i, j)| == 0 ==> forall m | i <= m < j :: marks[m].None?
  {
    var last := if marks[j - 1].Some? then {marks[j - 1].value} else {};
    assert KeysIn(marks, i, j) == KeysIn(marks, i, j - 1) + last;
    forall m | i <= m < j && marks[m].Some? ensures |KeysIn(marks, i, j)| > 0 {
      assert marks[m].value in KeysIn(marks, i, j);
    }
  }

  /** Between the first and the last mark of `n` keys there are at least `n - 1` milliseconds. */
  lemma {:induction false} KeysTakeTime(es: seq<Evaluation>, marks: seq<Option<string>>, i: nat, j: nat)
    returns (k: nat, l: nat)
    requires i < j <= |es| && Increasing(es, marks) && |KeysIn(marks, i, j)| > 0
    ensures i <= k <= l < j && marks[k].Some? && marks[l].Some? && forall m | i <= m < k :: marks[m].None?
    ensures es[l].now - es[k].now >= |KeysIn(marks, i, j)| - 1
    decreases j
  {
    OneMoreMark(marks, i, j);
    if i == j - 1 || |KeysIn(marks, i, j - 1)| == 0 {
      if i < j - 1 { OneMoreMark(marks, i, j - 1); }
      k, l := j - 1, j - 1;
    } else {
      k, l := KeysTakeTime(es, marks, i, j - 1);
      if marks[j - 1].Some? { l := j - 1; }
    }
  }

  lemma MarksIncrease(es: seq<Evaluation>, s: Subject)
    requires IsRun(es)
    ensures Increasing(es, RiskMarks(es, s))
  {
  }

  lemma FirstRiskIsCool(es: seq<Evaluation>, i: nat, k: nat, s: Subject)
    requires IsRun(es) && i <= k < |es| && QueuesRisk(es, k, s)
    requires forall m | i <= m < k :: !QueuesRisk(es, m, s)
    ensures PastCooldown(NotifiedBefore(es, i, s), es[k].now)
  {
    forall m | i <= m < k ensures !SavedAs(es, m, s, Risk) { assert !QueuesRisk(es, m, s); }
    RiskTimeStays(es, i, k, s);
  }

  lemma EarlierHasFourDigits(a: nat, b: nat)
    requires a <= b && InFourDigitYears(b)
    ensures InFourDigitYears(a)
  {
    var m, n := EPOCH_DAY + a / MS_PER_DAY, EPOCH_DAY + b / MS_PER_DAY;
    DateOfCounts(m);
    DateOfCounts(n);
    YearsFollowDays(DateOf(m), DateOf(n));
  }

  lemma TimeFrom(es: seq<Evaluation>, s: Subject, b: Baseline, t: nat, last: nat)
    requires AllBefore(es, |es|, s, t) && PastCooldown(b, t) && last - t >= 5 && InFourDigitYears(last)
    ensures HasTime(es, s, b)
  {
    EarlierHasFourDigits(t + 5, last);
  }

  lemma ManyKeysTakeTime(all: seq<Evaluation>, marks: seq<Option<string>>, i: nat, s: Subject)
    requires IsRun(all) && i < |all| && marks == RiskMarks(all, s) && |KeysIn(marks, i, |all|)| > 5
    ensures HasTime(all[..i], s, NotifiedBefore(all, i, s))
  {
    MarksIncrease(all, s);
    var k, l := KeysTakeTime(all, marks, i, |all|);
    forall m | i <= m < k ensures !QueuesRisk(all, m, s) { assert marks[m].None?; }
    FirstRiskIsCool(all, i, k, s);
    TimeFrom(all[..i], s, NotifiedBefore(all, i, s), all[k].now, all[l].now);
  }

  function FallingAt(s: Subject, t: nat, k: nat): Evaluation {
    Evaluation(s, Preferences(false, true, 0, 0), t + k, Local(Date(1970, 1, 1), 0), 5 - k, AlertQueued)
  }

  /** Six evaluations with ever lower scores whose saves are lost. */
  function Falling(s: Subject, t: nat): (more: seq<Evaluation>)
    ensures |more| == 6
  {
    seq(6, k requires 0 <= k < 6 => FallingAt(s, t, k))
  }

  lemma RunGoesOn(es: seq<Evaluation>, more: seq<Evaluation>, s: Subject, t: nat)
    requires IsRun(es) && AllBefore(es, |es|, s, t)
    requires forall k | 0 <= k < |more| :: IsEvaluation(more[k]) && more[k].subject == s && more[k].now == t + k
    ensures IsRun(es + more)
  {
    var all := es + more;
    forall k | 0 <= k < |all| ensures IsEvaluation(all[k]) {}
    forall k, l | 0 <= k < l < |all| && all[k].subject == all[l].subject ensures all[k].now < all[l].now {
      if l < |es| { assert es[k].now < es[l].now; }
    }
  }

  lemma FallingIsEvaluation(s: Subject, t: nat, k: nat)
    requires NoColon(s.user) && NoColon(s.goal) && InFourDigitYears(t + 5) && k < 6
    ensures IsEvaluation(FallingAt(s, t, k))
  {
    EarlierHasFourDigits(t + k, t + 5);
  }

  predicate FallsFrom(all: seq<Evaluation>, i: nat, s: Subject, t: nat) {
    |all| == i + 6 && forall k | i <= k < |all| :: all[k] == FallingAt(s, t, k - i)
  }

  lemma FallingIsARun(es: seq<Evaluation>, s: Subject, t: nat)
    requires IsRun(es) && NoColon(s.user) && NoColon(s.goal)
    requires AllBefore(es, |es|, s, t) && InFourDigitYears(t + 5)
    ensures IsRun(es + Falling(s, t)) && FallsFrom(es + Falling(s, t), |es|, s, t)
  {
    var more := Falling(s, t);
    forall k | 0 <= k < 6 ensures IsEvaluation(more[k]) { FallingIsEvaluation(s, t, k); }
    RunGoesOn(es, more, s, t);
  }

  lemma FromPrefix(es: seq<Evaluation>, more: seq<Evaluation>, s: Subject)
    requires IsRun(es + more)
    ensures IsRun(es) && NotifiedBefore(es + more, |es|, s) == Notified(After(es), s)
  {
    assert (es + more)[..|es|] == es;
    forall k | 0 <= k < |es| ensures (es + more)[k] == es[k] {}
  }

  lemma FallIsDecided(b: Baseline, score: int, t: nat)
    requires BaselineOk(b) && !NearBottom(b) && PastCooldown(b, t) && score <= 5
    ensures RiskDecision(StatusOf(score), score, b, t) == Some(Risk)
  {
  }

  lemma ManyNeedsHeight(all: seq<Evaluation>, es: seq<Evaluation>, s: Subject)
    requires IsRun(all) && es <= all && NoneSaved(all, |es|, |all|, s, Recovery)
    requires |RiskKeys(all, |es|, |all|, s)| > 5
    ensures !NearBottom(NotifiedBefore(all, |es|, s)) && HasTime(es, s, NotifiedBefore(all, |es|, s))
  {
    if NearBottom(NotifiedBefore(all, |es|, s)) { FewLowKeys(all, |es|, |all|, s); }
    ManyKeysTakeTime(all, RiskMarks(all, s), |es|, s);
    assert all[..|es|] == es;
  }

  /** A continuation without a saved recovery in which more than five different risk alerts are queued. */
  predicate QueuesMany(es: seq<Evaluation>, more: seq<Evaluation>, s: Subject) {
    var all := es + more;
    IsRun(all) && NoneSaved(all, |es|, |all|, s, Recovery) && |RiskKeys(all, |es|, |all|, s)| > 5
  }

  lemma FallingLoses(all: seq<Evaluation>, i: nat, s: Subject, t: nat, k: nat)
    requires IsRun(all) && FallsFrom(all, i, s, t) && i <= k < |all|
    requires !NearBottom(NotifiedBefore(all, i, s)) && PastCooldown(NotifiedBefore(all, i, s), t)
    ensures LosesRisk(all, k, s)
  {
    assert NothingSaved(all, i, k, s);
    UnsavedKeepsNotified(all, i, k, s);
    AlwaysOk(all, k, s);
    FallIsDecided(NotifiedBefore(all, k, s), all[k].score, all[k].now);
  }

  lemma FallingIsMany(all: seq<Evaluation>, i: nat, s: Subject, t: nat)
    requires IsRun(all) && FallsFrom(all, i, s, t)
    requires !NearBottom(NotifiedBefore(all, i, s)) && PastCooldown(NotifiedBefore(all, i, s), t)
    ensures NoneSaved(all, i, |all|, s, Recovery) && |RiskKeys(all, i, |all|, s)| > 5
  {
    forall k | i <= k < |all| ensures LosesRisk(all, k, s) { FallingLoses(all, i, s, t, k); }
    LostRisksCount(all, i, |all|, s);
    forall k | i <= k < |all| ensures !SavedAs(all, k, s, Recovery) { assert LosesRisk(all, k, s); }
  }

  lemma FallingQueuesMany(es: seq<Evaluation>, s: Subject, t: nat, b: Baseline)
    requires IsRun(es) && NoColon(s.user) && NoColon(s.goal) && b == Notified(After(es), s)
    requires AllBefore(es, |es|, s, t) && InFourDigitYears(t + 5) && !NearBottom(b) && PastCooldown(b, t)
    ensures QueuesMany(es, Falling(s, t), s)
  {
    FallingIsARun(es, s, t);
    FromPrefix(es, Falling(s, t), s);
    FallingIsMany(es + Falling(s, t), |es|, s, t);
  }

  /**
   Exactly when a run can go on to queue more than five different risk alerts with no recovery saved between
   them: when the score last notified is not below 20, and there is time for six evaluations past the cool-down.
   */
  lemma MoreThanFiveRisks(es: seq<Evaluation>, s: Subject)
    requires IsRun(es) && NoColon(s.user) && NoColon(s.goal)
    ensures (exists more :: QueuesMany(es, more, s))
            <==> !NearBottom(Notified(After(es), s)) && HasTime(es, s, Notified(After(es), s))
  {
    var b := Notified(After(es), s);
    forall more | QueuesMany(es, more, s) ensures !NearBottom(b) && HasTime(es, s, b) {
      FromPrefix(es, more, s);
      ManyNeedsHeight(es + more, es, s);
    }
    if !NearBottom(b) && HasTime(es, s, b) {
      var t: nat :| AllBefore(es, |es|, s, t) && PastCooldown(b, t) && InFourDigitYears(t + 5);
      FallingQueuesMany(es, s, t, b);
    }
  }

  predicate AllLost(es: seq<Evaluation>) {
    forall k | 0 <= k < |es| :: es[k].reached.AlertQueued? && es[k].prefs.risk && !StatusOf(es[k].score).Stable?
  }

  lemma LostQueues(es: seq<Evaluation>, k: nat, s: Subject)
    requires IsRun(es) && k < |es| && AllLost(es) && es[k].subject == s
    ensures LosesRisk(es, k, s)
  {
    UnsavedKeepsNotified(es, 0, k, s);
  }

  /** Ever lower scores, one millisecond apart, each save lost. */
  lemma LostSamples(n: nat) returns (es: seq<Evaluation>)
    requires n <= 70
    ensures |es| == n && AllLost(es)
    ensures forall k | 0 <= k < n ::
              IsSample(es[k]) && es[k].subject == SAMPLE && es[k].now == k && es[k].score == 69 - k
  {
    es := seq(n, k requires 0 <= k < n => Sample(k, 69 - k, AlertQueued));
  }

  /** Up to seventy different risk alerts within as many milliseconds, and no recovery. */
  lemma RisksInARow(n: nat) returns (es: seq<Evaluation>)
    requires n <= 70
    ensures IsRun(es) && |es| == n && |RiskKeys(es, 0, n, SAMPLE)| == n
    ensures forall k | 0 <= k < n :: es[k].subject == SAMPLE && es[k].now == k && !StatusOf(es[k].score).Stable?
  {
    es := LostSamples(n);
    SamplesAreARun(es);
    forall k | 0 <= k < n ensures LosesRisk(es, k, SAMPLE) { LostQueues(es, k, SAMPLE); }
    LostRisksCount(es, 0, n, SAMPLE);
  }

  /** Saved evaluations a day or more apart, from 69 fifteen points down each time. */
  predicate IsFall(es: seq<Evaluation>, s: Subject) {
    && (forall i | 0 <= i < |es| ::
          es[i].subject == s && es[i].prefs.risk && es[i].reached.Saved? && es[i].score == 69 - 15 * i)
    && (forall i, j | 0 <= i < j < |es| :: es[j].now - es[i].now >= RISK_COOLDOWN_MS)
  }

  lemma FallIsRisk(w: World, e: Evaluation)
    requires e.prefs.risk && e.score < 70
    requires var b := Notified(w, e.subject);
             b == NOTHING_NOTIFIED
             || (b.score == Some(e.score + 15) && b.riskAt.Some? && e.now - b.riskAt.value >= RISK_COOLDOWN_MS)
    ensures AlertDecided(w, e) == Some(Risk)
    ensures NotifiedAfter(w, e).score == Some(e.score) && NotifiedAfter(w, e).riskAt == Some(e.now)
  {
  }

  predicate AtFall(es: seq<Evaluation>, n: nat, b: Baseline)
    requires n <= |es|
  {
    if n == 0 then b == NOTHING_NOTIFIED else b.score == Some(es[n - 1].score) && b.riskAt == Some(es[n - 1].now)
  }

  lemma FallStep(es: seq<Evaluation>, s: Subject, n: nat)
    requires IsRun(es) && IsFall(es, s) && n < |es| && AtFall(es, n, NotifiedBefore(es, n, s))
    ensures SavedAs(es, n, s, Risk) && AtFall(es, n + 1, NotifiedBefore(es, n + 1, s))
  {
    FallIsRisk(Before(es, n), es[n]);
    NotifiedSteps(es, n, s);
  }

  lemma {:induction false} FallingAlerts(es: seq<Evaluation>, s: Subject, n: nat)
    requires IsRun(es) && IsFall(es, s) && n <= |es|
    ensures SavedRisks(es, 0, n, s) == n && AtFall(es, n, NotifiedBefore(es, n, s))
    decreases n
  {
    if n == 0 {
    } else {
      FallingAlerts(es, s, n - 1);
      FallStep(es, s, n - 1);
    }
  }

  lemma DailyFall(n: nat) returns (es: seq<Evaluation>)
    requires n <= 5
    ensures |es| == n && IsFall(es, SAMPLE) && forall k | 0 <= k < n :: IsSample(es[k])
  {
    es := seq(n, k requires 0 <= k < n => Sample(k * MS_PER_DAY, 69 - 15 * k, Saved));
  }

  /** And up to five are possible: a fall from 69 to 9 over five days. */
  lemma FiveRisksHappen(n: nat) returns (es: seq<Evaluation>)
    requires n <= 5
    ensures IsRun(es) && |es| == n && SavedRisks(es, 0, n, SAMPLE) == n
    ensures forall k | 0 <= k < n :: es[k].subject == SAMPLE && !StatusOf(es[k].score).Stable?
  {
    es := DailyFall(n);
    SamplesAreARun(es);
    FallingAlerts(es, SAMPLE, n);
  }

  // ----- the jobs in the queue -----

  predicate Queued(es: seq<Evaluation>, k: nat, key: string, job: Job)
    requires IsRun(es) && k < |es|
  {
    && (es[k].reached.AlertQueued? || es[k].reached.Saved?)
    && DecidedAt(es, k).Some? && KeyAt(es, k) == key && job == Alert(DecidedAt(es, k).value, es[k].subject)
  }

  /** Evaluation `k` got past its weekly step in that week, with the summary due. */
  predicate AsksFor(es: seq<Evaluation>, k: nat, s: Subject, week: string)
    requires IsRun(es) && k < |es|
  {
    && es[k].subject == s && es[k].prefs.weekly && !es[k].reached.Computed?
    && WeeklyDue(es[k].local, es[k].prefs.day, es[k].prefs.hour) && WeekKey(es[k].local) == week
  }

  predicate ComesFrom(es: seq<Evaluation>, i: nat, key: string, job: Job)
    requires IsRun(es) && i <= |es|
  {
    match job
    case Weekly(s, week) => key == WeeklyDedupeKey(s, week) && exists k | 0 <= k < i :: AsksFor(es, k, s, week)
    case Alert(_, _) => exists k | 0 <= k < i :: Queued(es, k, key, job)
  }

  predicate Grows(before: map<string, Job>, after: map<string, Job>, key: string) {
    key in before ==> key in after && after[key] == before[key]
  }

  lemma WeeklyStepQueues(w: World, e: Evaluation, key: string)
    requires IsLocal(e.local)
    ensures Grows(w.jobs, WeeklyJobs(w, e), key)
    ensures key in WeeklyJobs(w, e) && key !in w.jobs && !e.reached.Computed? ==>
        AddedBy(w, e, key, WeeklyJobs(w, e)[key])
  {
  }

  lemma AlertStepQueues(jobs: map<string, Job>, decided: Option<Decision>, b: Baseline, e: Evaluation, key: string)
    ensures var after := WithAlert(jobs, decided, b, e);
            && Grows(jobs, after, key)
            && (key in after && key !in jobs ==>
                  decided.Some? && key == AlertKey(decided.value, b, e)
                      && after[key] == Alert(decided.value, e.subject))
  {
  }

  lemma StepQueues(w: World, e: Evaluation, key: string)
    requires IsLocal(e.local)
    ensures Grows(w.jobs, Step(w, e).jobs, key)
    ensures key in Step(w, e).jobs && key !in w.jobs ==> AddedBy(w, e, key, Step(w, e).jobs[key])
  {
    WeeklyStepQueues(w, e, key);
    AlertStepQueues(WeeklyJobs(w, e), AlertDecided(w, e), Notified(w, e.subject), e, key);
  }

  predicate AddedBy(w: World, e: Evaluation, key: string, job: Job)
    requires IsLocal(e.local)
  {
    match job
    case Weekly(s, week) =>
      && s == e.subject && e.prefs.weekly && !e.reached.Computed? && WeeklyDue(e.local, e.prefs.day, e.prefs.hour)
      && week == WeekKey(e.local) && key == WeeklyDedupeKey(s, week)
    case Alert(d, s) =>
      && s == e.subject && AlertDecided(w, e) == Some(d) && (e.reached.AlertQueued? || e.reached.Saved?)
      && key == AlertKey(d, Notified(w, s), e)
  }

  lemma JobsStep(es: seq<Evaluation>, i: nat, key: string)
    requires IsRun(es) && i < |es|
    ensures var (before, after) := (Before(es, i).jobs, Before(es, i + 1).jobs);
            && Grows(before, after, key)
            && (key in after && key !in before ==> AddedBy(Before(es, i), es[i], key, after[key]))
  {
    BeforeSteps(es, i);
    StepQueues(Before(es, i), es[i], key);
  }

  /**
   A job is what its dedupe key says: the weekly summary it names, asked for by an evaluation of that week with
   the summary due, or an alert some evaluation decided under that key.
   */
  lemma {:induction false} JobsComeFromEvaluations(es: seq<Evaluation>, i: nat, key: string)
    requires IsRun(es) && i <= |es| && key in Before(es, i).jobs
    ensures ComesFrom(es, i, key, Before(es, i).jobs[key])
    decreases i
  {
    assert i > 0;
    var job := Before(es, i).jobs[key];
    JobsStep(es, i - 1, key);
    if key in Before(es, i - 1).jobs {
      JobsComeFromEvaluations(es, i - 1, key);
    } else if job.Alert? {
      assert Queued(es, i - 1, key, job);
    } else {
      assert AsksFor(es, i - 1, job.subject, job.week);
    }
  }

  lemma JobStays(es: seq<Evaluation>, i: nat, key: string)
    requires IsRun(es) && i < |es| && key in Before(es, i).jobs
    ensures key in Before(es, i + 1).jobs && Before(es, i + 1).jobs[key] == Before(es, i).jobs[key]
  {
    JobsStep(es, i, key);
  }

  lemma {:induction false} JobsStay(es: seq<Evaluation>, i: nat, j: nat, key: string)
    requires IsRun(es) && i <= j <= |es| && key in Before(es, i).jobs
    ensures key in Before(es, j).jobs && Before(es, j).jobs[key] == Before(es, i).jobs[key]
    decreases j
  {
    if i == j {
    } else {
      JobsStay(es, i, j - 1, key);
      JobStays(es, j - 1, key);
    }
  }

  lemma KindsHaveTheirKeys(d: Decision, b: Baseline, e: Evaluation, s: Subject, week: string)
    ensures AlertKey(d, b, e) != WeeklyDedupeKey(s, week)
  {
    assert AlertKey(d, b, e)[0] == TypeText(d)[0] == 'r';
    assert WeeklyDedupeKey(s, week)[0] == "weekly"[0] == 'w';
  }

  lemma WeeklyKeysDiffer(s: Subject, week: string, t: Subject, other: string)
    requires NoColon(s.user) && NoColon(s.goal) && NoColon(t.user) && NoColon(t.goal)
    requires WeeklyDedupeKey(s, week) == WeeklyDedupeKey(t, other)
    ensures s == t && week == other
  {
    assert NoColon("weekly") by { assert forall i | 0 <= i < 6 :: 'a' <= "weekly"[i] <= 'z'; }
    SplitAtFirst(':', "weekly", "weekly", s.user + ":" + (s.goal + ":" + week), t.user + ":" + (t.goal + ":" + other));
    SplitAtFirst(':', s.user, t.user, s.goal + ":" + week, t.goal + ":" + other);
    SplitAtFirst(':', s.goal, t.goal, week, other);
  }

  lemma AlertKeyCameFrom(es: seq<Evaluation>, i: nat, j: nat)
    requires IsRun(es) && i < |es| && j <= |es| && DecidedAt(es, i).Some? && KeyAt(es, i) in Before(es, j).jobs
    ensures exists k | 0 <= k < j :: Queued(es, k, KeyAt(es, i), Before(es, j).jobs[KeyAt(es, i)])
  {
    var key, job := KeyAt(es, i), Before(es, j).jobs[KeyAt(es, i)];
    JobsComeFromEvaluations(es, j, key);
    if job.Weekly? {
      KindsHaveTheirKeys(DecidedAt(es, i).value, NotifiedBefore(es, i, es[i].subject), es[i], job.subject, job.week);
    }
  }

  lemma SavedAlertHasItsKey(es: seq<Evaluation>, i: nat)
    requires IsRun(es) && i < |es| && es[i].reached.Saved? && DecidedAt(es, i).Some?
    ensures KeyAt(es, i) in Before(es, i + 1).jobs
  {
    BeforeSteps(es, i);
  }

  /**
   The unique key swallows no alert: what a saved evaluation decided is in the queue, put there by
   that evaluation or by an earlier lost one of the same user and goal, decision and score.
   */
  lemma SavedAlertIsQueued(es: seq<Evaluation>, i: nat)
    requires IsRun(es) && i < |es| && es[i].reached.Saved? && DecidedAt(es, i).Some?
    ensures var (key, job) := (KeyAt(es, i), Alert(DecidedAt(es, i).value, es[i].subject));
            && key in Before(es, i + 1).jobs && Before(es, i + 1).jobs[key] == job
            && exists k | 0 <= k <= i :: Queued(es, k, key, job)
                 && (k < i ==> !es[k].reached.Saved? && es[k].score == es[i].score)
  {
    SavedAlertHasItsKey(es, i);
    AlertKeyCameFrom(es, i, i + 1);
    var key := KeyAt(es, i);
    var k :| 0 <= k < i + 1 && Queued(es, k, key, Before(es, i + 1).jobs[key]);
    if k < i { EqualKeysAreOneAlert(es, k, i); }
  }

  /** There is at most one weekly job for a user, goal and week. */
  lemma OneWeeklyJob(es: seq<Evaluation>, i: nat, a: string, b: string)
    requires IsRun(es) && i <= |es| && a in Before(es, i).jobs && b in Before(es, i).jobs
    requires Before(es, i).jobs[a].Weekly? && Before(es, i).jobs[a] == Before(es, i).jobs[b]
    ensures a == b
  {
    JobsComeFromEvaluations(es, i, a);
    JobsComeFromEvaluations(es, i, b);
  }

  lemma {:induction false} SavedWeekIsQueued(es: seq<Evaluation>, i: nat, s: Subject)
    requires IsRun(es) && i <= |es| && WeeklyKeySaved(Before(es, i), s).Some?
    ensures WeeklyDedupeKey(s, WeeklyKeySaved(Before(es, i), s).value) in Before(es, i).jobs
    decreases i
  {
    assert i > 0;
    BeforeSteps(es, i - 1);
    if WeeklyKeySaved(Before(es, i), s) == WeeklyKeySaved(Before(es, i - 1), s) {
      SavedWeekIsQueued(es, i - 1, s);
      JobsStay(es, i - 1, i, WeeklyDedupeKey(s, WeeklyKeySaved(Before(es, i - 1), s).value));
    }
  }

  /** Once an evaluation of a due week got past its weekly step, that week's job is there for good. */
  lemma DueWeekIsQueued(es: seq<Evaluation>, i: nat, j: nat)
    requires IsRun(es) && i < j <= |es| && !es[i].reached.Computed?
    requires es[i].prefs.weekly && WeeklyDue(es[i].local, es[i].prefs.day, es[i].prefs.hour)
    ensures var key := WeeklyDedupeKey(es[i].subject, WeekKey(es[i].local));
            key in Before(es, j).jobs && Before(es, j).jobs[key] == Weekly(es[i].subject, WeekKey(es[i].local))
  {
    var s, week := es[i].subject, WeekKey(es[i].local);
    var key := WeeklyDedupeKey(s, week);
    BeforeSteps(es, i);
    if !SendsWeekly(Before(es, i), es[i]) { SavedWeekIsQueued(es, i, s); }
    assert key in Before(es, i + 1).jobs;
    JobsStay(es, i + 1, j, key);
    JobsComeFromEvaluations(es, j, key);
    var job := Before(es, j).jobs[key];
    if job.Weekly? {
      WeeklyKeysDiffer(job.subject, job.week, s, week);
    } else {
      var k :| 0 <= k < j && Queued(es, k, key, job);
      KindsHaveTheirKeys(DecidedAt(es, k).value, NotifiedBefore(es, k, es[k].subject), es[k], s, week);
    }
  }

  /** The job of a week is in the queue exactly when an evaluation of that week, with the summary due, asked for it. */
  lemma WeeklyJobExactlyWhenDue(es: seq<Evaluation>, j: nat, s: Subject, week: string)
    requires IsRun(es) && j <= |es| && NoColon(s.user) && NoColon(s.goal)
    ensures WeeklyDedupeKey(s, week) in Before(es, j).jobs <==> exists k | 0 <= k < j :: AsksFor(es, k, s, week)
  {
    var key := WeeklyDedupeKey(s, week);
    if key in Before(es, j).jobs {
      JobsComeFromEvaluations(es, j, key);
      var job := Before(es, j).jobs[key];
      if job.Weekly? {
        var k :| 0 <= k < j && AsksFor(es, k, job.subject, job.week);
        WeeklyKeysDiffer(job.subject, job.week, s, week);
      } else {
        var k :| 0 <= k < j && Queued(es, k, key, job);
        KindsHaveTheirKeys(DecidedAt(es, k).value, NotifiedBefore(es, k, es[k].subject), es[k], s, week);
      }
    }
    forall k | 0 <= k < j && AsksFor(es, k, s, week) ensures key in Before(es, j).jobs {
      DueWeekIsQueued(es, k, j);
    }
  }

  /** A week whose first due evaluation was lost is still made up for by any later one of that week. */
  lemma MissedWeekIsMadeUp(es: seq<Evaluation>, i: nat, j: nat)
    requires IsRun(es) && i < j < |es| && es[i].subject == es[j].subject && es[i].prefs == es[j].prefs
    requires es[i].prefs.weekly && WeeklyDue(es[i].local, es[i].prefs.day, es[i].prefs.hour)
    requires NotEarlier(es[i].local, es[j].local) && WeekOf(es[i].local) == WeekOf(es[j].local)
    requires !es[j].reached.Computed?
    ensures WeeklyDedupeKey(es[i].subject, WeekKey(es[i].local)) in Before(es, j + 1).jobs
  {
    SameWeekSameStart(es[i].local, es[j].local);
    DueStaysDue(es[i].local, es[j].local, es[i].prefs.day, es[i].prefs.hour);
    DueWeekIsQueued(es, j, j + 1);
  }

  // ----- the service -----

  /** The selected goal and the figures the dashboard computed its score from. */
  datatype Snapshot = Snapshot(goal: string, inputs: Inputs)

  /** The columns an evaluation is about to write; an absent one is left as it is. */
  datatype StateUpdate = StateUpdate(
    observedStatus: Status,
    observedScore: int,
    status: Option<Status>,
    score: Option<int>,
    riskAt: Option<nat>,
    recoveryAt: Option<nat>,
    weeklyAt: Option<nat>,
    weeklyKey: Option<string>)

  function Written<T>(update: Option<T>, previous: Option<T>): Option<T> {
    if update.Some? then update else previous
  }

  function WrittenBaseline(u: StateUpdate, b: Baseline): Baseline {
    Baseline(Written(u.status, b.status), Written(u.score, b.score), Written(u.riskAt, b.riskAt),
             Written(u.recoveryAt, b.recoveryAt))
  }

  /** The row an upsert leaves, whether it inserts or updates. */
  function Applied(u: StateUpdate, w: World, s: Subject): Row {
    Row(u.observedStatus, u.observedScore, WrittenBaseline(u, Notified(w, s)),
        Written(u.weeklyAt, WeeklyAtSaved(w, s)), Written(u.weeklyKey, WeeklyKeySaved(w, s)))
  }

  lemma UpdateGivesRow(u: StateUpdate, w: World, e: Evaluation)
    requires IsLocal(e.local) && u.observedStatus == StatusOf(e.score) && u.observedScore == e.score
    requires WrittenBaseline(u, Notified(w, e.subject)) == NotifiedAfter(w, e)
    requires u.weeklyAt == if SendsWeekly(w, e) then Some(e.now) else None
    requires u.weeklyKey == if SendsWeekly(w, e) then Some(WeekKey(e.local)) else None
    ensures Applied(u, w, e.subject) == RowAfter(w, e)
  {
  }

  /** The weekly step leaves the rows, so the alert and what is notified after it do not depend on it. */
  lemma RowsDecide(w: World, jobs: map<string, Job>, e: Evaluation)
    ensures AlertDecided(w.(jobs := jobs), e) == AlertDecided(w, e)
    ensures NotifiedAfter(w.(jobs := jobs), e) == NotifiedAfter(w, e)
  {
  }

  predicate Evaluates(prefs: Option<Preferences>, snapshot: Option<Snapshot>) {
    prefs.Some? && (prefs.value.weekly || prefs.value.risk) && snapshot.Some?
  }

  function EvaluationOf(fl: Rounding, user: string, prefs: Preferences, snapshot: Snapshot, now: nat, local: Local,
                        reached: Reached): Evaluation
  {
    Evaluation(Subject(user, snapshot.goal), prefs, now, local, Score(fl, snapshot.inputs), reached)
  }

  class AlertsService {
    var rows: map<Subject, Row>
    var jobs: map<string, Job>
    const fl: Rounding

    ghost function Contents(): World
      reads this
    {
      World(rows, jobs)
    }

    constructor (fl: Rounding)
      ensures Contents() == NO_WORLD && this.fl == fl
    {
      rows, jobs, this.fl := map[], map[], fl;
    }

    /** A violated unique constraint is reported as not queued, and nothing else happens. */
    method EnqueueReadinessAlert(key: string, job: Job) returns (queued: bool)
      modifies `jobs
      ensures queued <==> key !in old(jobs)
      ensures jobs == Queue(old(jobs), key, job)
    {
      queued := key !in jobs;
      if queued { jobs := jobs[key := job]; }
    }

    method Upsert(s: Subject, u: StateUpdate)
      modifies `rows
      ensures rows == old(rows)[s := Applied(u, old(Contents()), s)]
    {
      var row := Row(u.observedStatus, u.observedScore, Baseline(u.status, u.score, u.riskAt, u.recoveryAt), u.weeklyAt,
                     u.weeklyKey);
      if s in rows {
        var r := rows[s];
        var notified := Baseline(Written(u.status, r.notified.status), Written(u.score, r.notified.score),
                                 Written(u.riskAt, r.notified.riskAt), Written(u.recoveryAt, r.notified.recoveryAt));
        row := Row(u.observedStatus, u.observedScore, notified, Written(u.weeklyAt, r.weeklyAt),
                   Written(u.weeklyKey, r.weeklyKey));
      }
      rows := rows[s := row];
    }

    method QueueWeekly(ghost e: Evaluation, s: Subject, p: Preferences, now: nat, local: Local, u: StateUpdate)
      returns (v: StateUpdate)
      requires IsLocal(local) && e.subject == s && e.prefs == p && e.now == now && e.local == local
      modifies `jobs
      ensures jobs == WeeklyJobs(old(Contents()), e)
      ensures v == if !SendsWeekly(old(Contents()), e) then u
                   else u.(weeklyAt := Some(now), weeklyKey := Some(WeekKey(local)))
    {
      v := u;
      if p.weekly {
        var key := WeekKey(local);
        if WeeklyDue(local, p.day, p.hour) && (s !in rows || rows[s].weeklyKey != Some(key)) {
          var _ := EnqueueReadinessAlert(WeeklyDedupeKey(s, key), Weekly(s, key));
          v := u.(weeklyAt := Some(now), weeklyKey := Some(key));
        }
      }
    }

    /** Queues the alert that is due, if any, and notes in the update what is now notified. */
    method QueueAlert(ghost e: Evaluation, s: Subject, risk: bool, score: int, now: nat, u: StateUpdate)
      returns (v: StateUpdate)
      requires e.subject == s && e.prefs.risk == risk && e.now == now && e.score == score
      requires u.status == None && u.score == None && u.riskAt == None && u.recoveryAt == None
      modifies `jobs
      ensures var (w, d) := (old(Contents()), AlertDecided(old(Contents()), e));
              jobs == WithAlert(w.jobs, d, Notified(w, s), e)
      ensures WrittenBaseline(v, Notified(old(Contents()), s)) == NotifiedAfter(old(Contents()), e)
      ensures v == u.(status := v.status, score := v.score, riskAt := v.riskAt, recoveryAt := v.recoveryAt)
    {
      v := u;
      if risk {
        var status := StatusOf(score);
        var baseline := if s in rows then rows[s].notified else NOTHING_NOTIFIED;
        var decision := RiskDecision(status, score, baseline, now);
        if decision.Some? {
          var key := AlertOccurrenceKey(decision.value, s.user, s.goal, baseline, status, score);
          var _ := EnqueueReadinessAlert(key, Alert(decision.value, s));
          v := v.(status := Some(status), score := Some(score));
          if decision.value.Risk? {
            v := v.(riskAt := Some(now));
          } else {
            v := v.(recoveryAt := Some(now));
          }
        } else if s !in rows && status.Stable? {
          v := v.(status := Some(status), score := Some(score));
        }
      }
    }

    /** What follows the weekly step: the alert and, if the process still lives, the row. */
    method QueueAlertAndSave(ghost w: World, ghost e: Evaluation, s: Subject, risk: bool, score: int, now: nat,
                             u: StateUpdate, saves: bool)
      requires IsLocal(e.local) && Contents() == w.(jobs := WeeklyJobs(w, e))
      requires e.subject == s && e.prefs.risk == risk && e.now == now && e.score == score
      requires u == StateUpdate(StatusOf(score), score, None, None, None, None,
                                if SendsWeekly(w, e) then Some(now) else None,
                                if SendsWeekly(w, e) then Some(WeekKey(e.local)) else None)
      modifies this
      ensures Contents() == World(if saves then w.rows[s := RowAfter(w, e)] else w.rows, AllJobs(w, e))
    {
      RowsDecide(w, jobs, e);
      var update := QueueAlert(e, s, risk, score, now, u);
      if saves {
        Upsert(s, update);
        UpdateGivesRow(update, w, e);
      }
    }

    /** One evaluation; `reached` says where the process dies, if it does. */
    method EvaluateUser(user: string, prefs: Option<Preferences>, snapshot: Option<Snapshot>, now: nat, local: Local,
                        reached: Reached)
      requires IsLocal(local)
      modifies this
      ensures Contents() == if Evaluates(prefs, snapshot)
                            then Step(old(Contents()), EvaluationOf(fl, user, prefs.value, snapshot.value, now, local,
                                                                    reached))
                            else old(Contents())
    {
      if prefs.None? || (!prefs.value.weekly && !prefs.value.risk) { return; }
      if snapshot.None? || reached.Computed? { return; }
      var p, s := prefs.value, Subject(user, snapshot.value.goal);
      var score := Score(fl, snapshot.value.inputs);
      ghost var w, e := Contents(), EvaluationOf(fl, user, p, snapshot.value, now, local, reached);
      var update := StateUpdate(StatusOf(score), score, None, None, None, None, None, None);
      update := QueueWeekly(e, s, p, now, local, update);
      if !reached.WeeklyQueued? {
        QueueAlertAndSave(w, e, s, p.risk, score, now, update, reached.Saved?);
      }
    }
  }
}
