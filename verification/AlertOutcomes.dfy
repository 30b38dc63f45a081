/**
 What an alert row says of the evaluations before it, and when the weekly summary is due: each column is that of the
 latest saved evaluation that wrote it.
 */
module AlertOutcomes {
  import opened Wrappers
  import Calendar
  import opened StabilityEngine
  import opened AlertRules
  import opened Alerts

  // ----- the weekly summary -----

  /** Hours from the Sunday midnight that starts the week of a local date. */
  function HoursIntoWeek(l: Local): int
    requires IsLocal(l)
  {
    WeekStartIsSunday(l);
    24 * (Calendar.DayNumber(l.date) - Calendar.DayNumber(WeekStart(l))) + l.hour
  }

  lemma WeekdayCounts(n: nat, start: nat, hour: nat)
    requires n >= 7 && start == 7 * ((n + 6) / 7) - 6 && hour < 24
    ensures Calendar.Weekday(n) == n - start && 0 <= n - start <= 6
  {
  }

  /** The summary of a week is due from its day and hour on, counted from Sunday midnight. */
  lemma DueExactly(l: Local, day: nat, hour: nat)
    requires IsLocal(l) && hour < 24
    ensures WeeklyDue(l, day, hour) <==> HoursIntoWeek(l) >= 24 * day + hour
  {
    LateEnough(l.date);
    WeekStartIsSunday(l);
    WeekdayCounts(Calendar.DayNumber(l.date), Calendar.DayNumber(WeekStart(l)), l.hour);
  }

  // ----- the last observation -----

  predicate Saves(es: seq<Evaluation>, k: nat, s: Subject)
    requires k < |es|
  {
    es[k].subject == s && es[k].reached.Saved?
  }

  predicate LatestSaved(es: seq<Evaluation>, k: nat, i: nat, s: Subject)
    requires k < i <= |es|
  {
    Saves(es, k, s) && NothingSaved(es, k + 1, i, s)
  }

  predicate Observed(row: Row, e: Evaluation) {
    && row.observedScore == e.score
    && row.observedStatus == if e.score >= 70 then Stable else if e.score >= 40 then Warning else Critical
  }

  predicate ObservedOk(es: seq<Evaluation>, i: nat, s: Subject)
    requires IsRun(es) && i <= |es|
  {
    if s in Before(es, i).rows
    then exists k | 0 <= k < i :: LatestSaved(es, k, i, s) && Observed(Before(es, i).rows[s], es[k])
    else NothingSaved(es, 0, i, s)
  }

  lemma RowSteps(es: seq<Evaluation>, i: nat, s: Subject)
    requires IsRun(es) && i < |es|
    ensures Saves(es, i, s) ==>
              s in Before(es, i + 1).rows && Before(es, i + 1).rows[s] == RowAfter(Before(es, i), es[i])
    ensures !Saves(es, i, s) ==> (s in Before(es, i + 1).rows <==> s in Before(es, i).rows)
    ensures !Saves(es, i, s) && s in Before(es, i).rows ==> Before(es, i + 1).rows[s] == Before(es, i).rows[s]
  {
    BeforeSteps(es, i);
  }

  lemma LatestGoesOn(es: seq<Evaluation>, k: nat, i: nat, s: Subject)
    requires k < i < |es| && LatestSaved(es, k, i, s) && !Saves(es, i, s)
    ensures LatestSaved(es, k, i + 1, s)
  {
  }

  lemma ObservedGoesOn(es: seq<Evaluation>, i: nat, s: Subject)
    requires IsRun(es) && i < |es| && ObservedOk(es, i, s) && !Saves(es, i, s)
    ensures ObservedOk(es, i + 1, s)
  {
    RowSteps(es, i, s);
    if s in Before(es, i).rows {
      var k :| 0 <= k < i && LatestSaved(es, k, i, s) && Observed(Before(es, i).rows[s], es[k]);
      LatestGoesOn(es, k, i, s);
    }
  }

  /** The row exists from the first saved evaluation on, and shows the score and band of the latest. */
  lemma {:induction false} ObservedIsLatest(es: seq<Evaluation>, i: nat, s: Subject)
    requires IsRun(es) && i <= |es|
    ensures ObservedOk(es, i, s)
    decreases i
  {
    if i == 0 {
    } else {
      ObservedIsLatest(es, i - 1, s);
      if Saves(es, i - 1, s) {
        RowSteps(es, i - 1, s);
        assert LatestSaved(es, i - 1, i, s);
      } else {
        ObservedGoesOn(es, i - 1, s);
      }
    }
  }

  // ----- the last alerts -----

  function StampOf(b: Baseline, d: Decision): Option<nat> {
    if d.Risk? then b.riskAt else b.recoveryAt
  }

  predicate LatestOfKind(es: seq<Evaluation>, k: nat, i: nat, s: Subject, d: Decision)
    requires IsRun(es) && k < i <= |es|
  {
    SavedAs(es, k, s, d) && NoneSaved(es, k + 1, i, s, d)
  }

  predicate StampOk(es: seq<Evaluation>, i: nat, s: Subject, d: Decision)
    requires IsRun(es) && i <= |es|
  {
    match StampOf(NotifiedBefore(es, i, s), d)
    case Some(at) => exists k | 0 <= k < i :: LatestOfKind(es, k, i, s, d) && es[k].now == at
    case None => NoneSaved(es, 0, i, s, d)
  }

  lemma StampSteps(es: seq<Evaluation>, i: nat, s: Subject, d: Decision)
    requires IsRun(es) && i < |es|
    ensures StampOf(NotifiedBefore(es, i + 1, s), d)
            == if SavedAs(es, i, s, d) then Some(es[i].now) else StampOf(NotifiedBefore(es, i, s), d)
  {
    NotifiedSteps(es, i, s);
  }

  lemma KindGoesOn(es: seq<Evaluation>, k: nat, i: nat, s: Subject, d: Decision)
    requires IsRun(es) && k < i < |es| && LatestOfKind(es, k, i, s, d) && !SavedAs(es, i, s, d)
    ensures LatestOfKind(es, k, i + 1, s, d)
  {
  }

  lemma StampGoesOn(es: seq<Evaluation>, i: nat, s: Subject, d: Decision)
    requires IsRun(es) && i < |es| && StampOk(es, i, s, d) && !SavedAs(es, i, s, d)
    ensures StampOk(es, i + 1, s, d)
  {
    StampSteps(es, i, s, d);
    var stamp := StampOf(NotifiedBefore(es, i, s), d);
    if stamp.Some? {
      var k :| 0 <= k < i && LatestOfKind(es, k, i, s, d) && es[k].now == stamp.value;
      KindGoesOn(es, k, i, s, d);
    }
  }

  /** The time noted for each kind of alert is that of the latest saved one, and there is none before the first. */
  lemma {:induction false} StampIsLatest(es: seq<Evaluation>, i: nat, s: Subject, d: Decision)
    requires IsRun(es) && i <= |es|
    ensures StampOk(es, i, s, d)
    decreases i
  {
    if i == 0 {
    } else {
      StampIsLatest(es, i - 1, s, d);
      if SavedAs(es, i - 1, s, d) {
        StampSteps(es, i - 1, s, d);
        assert LatestOfKind(es, i - 1, i, s, d);
      } else {
        StampGoesOn(es, i - 1, s, d);
      }
    }
  }

  // ----- the baseline -----

  /** A saved evaluation sets the baseline when it decides an alert, or is the first one and stable. */
  predicate SetsBaseline(es: seq<Evaluation>, k: nat, s: Subject)
    requires IsRun(es) && k < |es|
  {
    && Saves(es, k, s)
    && (DecidedAt(es, k).Some? || (es[k].prefs.risk && NothingSaved(es, 0, k, s) && es[k].score >= 70))
  }

  predicate LatestBaseline(es: seq<Evaluation>, k: nat, i: nat, s: Subject)
    requires IsRun(es) && k < i <= |es|
  {
    SetsBaseline(es, k, s) && forall m | k < m < i :: !SetsBaseline(es, m, s)
  }

  predicate BaselineFrom(b: Baseline, e: Evaluation) {
    b.score == Some(e.score) && b.status == Some(StatusOf(e.score))
  }

  predicate BaselineIsOf(es: seq<Evaluation>, i: nat, s: Subject)
    requires IsRun(es) && i <= |es|
  {
    var b := NotifiedBefore(es, i, s);
    if b.status.Some? then exists k | 0 <= k < i :: LatestBaseline(es, k, i, s) && BaselineFrom(b, es[k])
    else b.score.None? && forall m | 0 <= m < i :: !SetsBaseline(es, m, s)
  }

  lemma BaselineSteps(es: seq<Evaluation>, i: nat, s: Subject)
    requires IsRun(es) && i < |es|
    ensures SetsBaseline(es, i, s) ==> BaselineFrom(NotifiedBefore(es, i + 1, s), es[i])
    ensures !SetsBaseline(es, i, s) ==>
              NotifiedBefore(es, i + 1, s).status == NotifiedBefore(es, i, s).status
              && NotifiedBefore(es, i + 1, s).score == NotifiedBefore(es, i, s).score
  {
    NotifiedSteps(es, i, s);
    ObservedIsLatest(es, i, s);
  }

  lemma LatestBaselineGoesOn(es: seq<Evaluation>, k: nat, i: nat, s: Subject)
    requires IsRun(es) && k < i < |es| && LatestBaseline(es, k, i, s) && !SetsBaseline(es, i, s)
    ensures LatestBaseline(es, k, i + 1, s)
  {
  }

  lemma BaselineGoesOn(es: seq<Evaluation>, i: nat, s: Subject)
    requires IsRun(es) && i < |es| && BaselineIsOf(es, i, s) && !SetsBaseline(es, i, s)
    ensures BaselineIsOf(es, i + 1, s)
  {
    BaselineSteps(es, i, s);
    var b := NotifiedBefore(es, i, s);
    if b.status.Some? {
      var k :| 0 <= k < i && LatestBaseline(es, k, i, s) && BaselineFrom(b, es[k]);
      LatestBaselineGoesOn(es, k, i, s);
    }
  }

  /** What counts as notified is the score and band of the latest evaluation that set the baseline. */
  lemma {:induction false} BaselineIsLatest(es: seq<Evaluation>, i: nat, s: Subject)
    requires IsRun(es) && i <= |es|
    ensures BaselineIsOf(es, i, s)
    decreases i
  {
    if i == 0 {
    } else {
      BaselineIsLatest(es, i - 1, s);
      if SetsBaseline(es, i - 1, s) {
        BaselineSteps(es, i - 1, s);
        assert LatestBaseline(es, i - 1, i, s);
      } else {
        BaselineGoesOn(es, i - 1, s);
      }
    }
  }

  // ----- the last weekly summary -----

  /** A saved evaluation in whose week the summary was due. */
  predicate SavesWeek(es: seq<Evaluation>, k: nat, s: Subject)
    requires IsRun(es) && k < |es|
  {
    Saves(es, k, s) && AsksFor(es, k, s, WeekKey(es[k].local))
  }

  /** One for a week other than the one noted. */
  predicate NewWeek(es: seq<Evaluation>, i: nat, s: Subject)
    requires IsRun(es) && i < |es|
  {
    SavesWeek(es, i, s) && WeeklyKeySaved(Before(es, i), s) != Some(WeekKey(es[i].local))
  }

  predicate LatestWeek(es: seq<Evaluation>, k: nat, i: nat, s: Subject)
    requires IsRun(es) && k < i <= |es|
  {
    NewWeek(es, k, s) && forall m | k < m < i && SavesWeek(es, m, s) :: WeekKey(es[m].local) == WeekKey(es[k].local)
  }

  predicate WeekFrom(w: World, s: Subject, e: Evaluation)
    requires IsLocal(e.local)
  {
    WeeklyKeySaved(w, s) == Some(WeekKey(e.local)) && WeeklyAtSaved(w, s) == Some(e.now)
  }

  predicate WeekOk(es: seq<Evaluation>, i: nat, s: Subject)
    requires IsRun(es) && i <= |es|
  {
    if WeeklyKeySaved(Before(es, i), s).Some?
    then exists k | 0 <= k < i :: LatestWeek(es, k, i, s) && WeekFrom(Before(es, i), s, es[k])
    else WeeklyAtSaved(Before(es, i), s).None? && forall m | 0 <= m < i :: !SavesWeek(es, m, s)
  }

  lemma WeekSteps(es: seq<Evaluation>, i: nat, s: Subject)
    requires IsRun(es) && i < |es|
    ensures var (w, v) := (Before(es, i), Before(es, i + 1));
            if SavesWeek(es, i, s) && WeeklyKeySaved(w, s) != Some(WeekKey(es[i].local)) then WeekFrom(v, s, es[i])
            else WeeklyKeySaved(v, s) == WeeklyKeySaved(w, s) && WeeklyAtSaved(v, s) == WeeklyAtSaved(w, s)
  {
    RowSteps(es, i, s);
  }

  lemma LatestWeekGoesOn(es: seq<Evaluation>, k: nat, i: nat, s: Subject)
    requires IsRun(es) && k < i < |es| && LatestWeek(es, k, i, s)
    requires SavesWeek(es, i, s) ==> WeekKey(es[i].local) == WeekKey(es[k].local)
    ensures LatestWeek(es, k, i + 1, s)
  {
  }

  lemma WeekGoesOn(es: seq<Evaluation>, i: nat, s: Subject)
    requires IsRun(es) && i < |es| && WeekOk(es, i, s) && !NewWeek(es, i, s)
    ensures WeekOk(es, i + 1, s)
  {
    WeekSteps(es, i, s);
    var w := Before(es, i);
    if WeeklyKeySaved(w, s).Some? {
      var k :| 0 <= k < i && LatestWeek(es, k, i, s) && WeekFrom(w, s, es[k]);
      LatestWeekGoesOn(es, k, i, s);
    }
  }

  /**
   The week noted is that of the latest saved evaluation with the summary due; the time noted is that of the one that
   first noted this week after another or none.
   */
  lemma {:induction false} WeekIsLatest(es: seq<Evaluation>, i: nat, s: Subject)
    requires IsRun(es) && i <= |es|
    ensures WeekOk(es, i, s)
    decreases i
  {
    if i == 0 {
    } else {
      WeekIsLatest(es, i - 1, s);
      if NewWeek(es, i - 1, s) {
        WeekSteps(es, i - 1, s);
        assert LatestWeek(es, i - 1, i, s);
      } else {
        WeekGoesOn(es, i - 1, s);
      }
    }
  }

  // ----- preferences -----

  /** Evaluation `k` wanted risk alerts, and found what this kind of alert reports. */
  predicate WantsAlert(es: seq<Evaluation>, k: nat, d: Decision)
    requires IsRun(es) && k < |es|
  {
    && es[k].prefs.risk
    && (if es[k].score >= 70 then d.Recovery? else d.Risk?)
  }

  lemma DecisionIsWanted(es: seq<Evaluation>, k: nat)
    requires IsRun(es) && k < |es| && DecidedAt(es, k).Some?
    ensures WantsAlert(es, k, DecidedAt(es, k).value)
  {
  }

  /**
   Every alert job was put there by an evaluation of its user and goal that wanted risk alerts: a risk alert by one that
   found the goal not stable, a recovery by one that found it stable.
   */
  lemma AlertsAreWanted(es: seq<Evaluation>, i: nat, key: string)
    requires IsRun(es) && i <= |es| && key in Before(es, i).jobs && Before(es, i).jobs[key].Alert?
    ensures var job := Before(es, i).jobs[key];
            exists k | 0 <= k < i :: es[k].subject == job.subject && WantsAlert(es, k, job.decision)
  {
    var job := Before(es, i).jobs[key];
    JobsComeFromEvaluations(es, i, key);
    var k :| 0 <= k < i && Queued(es, k, key, job);
    DecisionIsWanted(es, k);
  }
}
