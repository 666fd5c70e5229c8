/** The stateful part of the adaptive learning system: the per-user session
    store that `track_progress` fills with topic timestamps, the learning
    patterns, the profile fields the analyses write, and the rules that turn
    a performance record into adjustments. The clock is a parameter `now`
    and the forgetting curve a parameter `decay`. */
module Progress {
  import opened Wrappers
  import opened Seqs
  import opened Analytics

  /** One entry of a recent-activity log, as the current-fatigue analysis
      reads it. */
  datatype Session = Session(duration: real, intensity: real)

  /** A value of a user's session store. `track_progress` stores a
      timestamp per topic; the current-fatigue analysis expects a list of
      sessions under the key `recent_activities`. */
  datatype SessionValue = Timestamp(time: real) | Activities(log: seq<Session>)

  /** The `UserProfile` fields the modelled operations write;
      `accuracyHistory` is the `accuracy_history` entry of `strengths`
      (an absent entry is the empty list). */
  datatype Profile = Profile(
    fatiguePattern: map<string, real>,
    learningSpeed: map<string, real>,
    accuracyHistory: seq<real>)

  datatype LearningState = LearningState(
    profiles: map<string, Profile>,
    sessions: map<string, map<string, SessionValue>>,
    patterns: map<string, map<string, TopicData>>)

  /** The state after an operation together with its value or exception;
      an exception leaves behind the writes made before it was raised. */
  datatype Outcome<+R> = Outcome(state: LearningState, result: Result<R>)

  const RecentActivities: string := "recent_activities"

  // ---------------------------------------------------------------------
  // Current fatigue from a session log

  /** The slice `[-5:]`: the last five sessions, or all of them. */
  function LastFive(s: seq<Session>): (w: seq<Session>)
    ensures |w| == MinInt(5, |s|)
    ensures w == s[|s| - |w|..]
  {
    if |s| <= 5 then s else s[|s| - 5..]
  }

  function Durations(s: seq<Session>): (d: seq<real>)
    ensures |d| == |s| && forall i :: 0 <= i < |s| ==> d[i] == s[i].duration
  {
    seq(|s|, i requires 0 <= i < |s| => s[i].duration)
  }

  function Intensities(s: seq<Session>): (d: seq<real>)
    ensures |d| == |s| && forall i :: 0 <= i < |s| ==> d[i] == s[i].intensity
  {
    seq(|s|, i requires 0 <= i < |s| => s[i].intensity)
  }

  /** The fatigue formula of `_analyze_current_fatigue` on a session log:
      over the last five sessions, 0.7 * total duration plus 0.3 * (total
      intensity / 5), divided by 100 and capped at 1 from above only. */
  function SessionFatigue(s: seq<Session>): (f: real)
    ensures s == [] ==> f == 0.0
    ensures f <= 1.0
    ensures s != [] && f < 1.0 ==>
              f * 100.0 == 0.7 * Sum(Durations(LastFive(s))) + 0.06 * Sum(Intensities(LastFive(s)))
    ensures s != [] && f == 1.0 ==>
              0.7 * Sum(Durations(LastFive(s))) + 0.06 * Sum(Intensities(LastFive(s))) >= 100.0
    ensures (forall i :: 0 <= i < |s| ==> s[i].duration >= 0.0 && s[i].intensity >= 0.0) ==> f >= 0.0
  {
    if s == [] then 0.0
    else
      var w := LastFive(s);
      var total := Sum(Durations(w));
      var avgIntensity := Sum(Intensities(w)) / 5.0;
      assert forall i :: 0 <= i < |w| ==> w[i] == s[|s| - |w| + i];
      SumNonNegative(Durations(w));
      SumNonNegative(Intensities(w));
      Min((total * 0.7 + avgIntensity * 0.3) / 100.0, 1.0)
  }

  /** Only the last five sessions count. */
  lemma SessionFatigueLastFive(older: seq<Session>, s: seq<Session>)
    requires |s| >= 5
    ensures SessionFatigue(older + s) == SessionFatigue(s)
  {
    assert LastFive(older + s) == LastFive(s);
  }

  /** The total intensity is divided by 5 even when fewer than five sessions
      exist: one session of duration 0 and intensity 100 gives 0.06, not
      the 0.3 a mean intensity would give. */
  lemma SessionFatigueDividesByFive()
    ensures SessionFatigue([Session(0.0, 100.0)]) == 0.06
  {
    var s := [Session(0.0, 100.0)];
    assert Durations(s) == [0.0] && Intensities(s) == [100.0];
    assert Sum([0.0]) == 0.0 + Sum([]);
    assert Sum([100.0]) == 100.0 + Sum([]);
  }

  /** There is no lower clamp: a negative duration gives a negative fatigue. */
  lemma SessionFatigueNoLowerClamp()
    ensures SessionFatigue([Session(-200.0, 0.0)]) == -1.4
  {
    var s := [Session(-200.0, 0.0)];
    assert Durations(s) == [-200.0] && Intensities(s) == [0.0];
    assert Sum([-200.0]) == -200.0 + Sum([]);
    assert Sum([0.0]) == 0.0 + Sum([]);
  }

  /** `_analyze_current_fatigue`: 0 for a user without sessions or without a
      `recent_activities` entry, or when that entry is falsy; the formula
      when it is a session log; and a `TypeError` when it is a non-zero
      timestamp, which cannot be sliced. */
  function CurrentFatigue(st: LearningState, user: string): (r: Result<real>)
    ensures user !in st.sessions ==> r == Success(0.0)
    ensures user in st.sessions && RecentActivities !in st.sessions[user] ==> r == Success(0.0)
    ensures r.Failure? <==>
              && user in st.sessions && RecentActivities in st.sessions[user]
              && st.sessions[user][RecentActivities].Timestamp?
              && st.sessions[user][RecentActivities].time != 0.0
    ensures r.Success? ==> r.value <= 1.0
    ensures (user in st.sessions && RecentActivities in st.sessions[user]
              && st.sessions[user][RecentActivities] == Timestamp(0.0)) ==> r == Success(0.0)
    ensures user in st.sessions && RecentActivities in st.sessions[user]
              && st.sessions[user][RecentActivities].Activities? ==>
              r == Success(SessionFatigue(st.sessions[user][RecentActivities].log))
  {
    if user !in st.sessions || RecentActivities !in st.sessions[user] then Success(0.0)
    else
      match st.sessions[user][RecentActivities]
      case Activities(log) => Success(SessionFatigue(log))
      case Timestamp(t) =>
        if t == 0.0 then Success(0.0)
        else Failure(TypeError("'float' object is not subscriptable"))
  }

  // ---------------------------------------------------------------------
  // Break duration

  /** Python's `int()` on a float: truncation toward zero. */
  function Trunc(x: real): (n: int)
    ensures x >= 0.0 ==> n as real <= x < n as real + 1.0
    ensures x < 0.0 ==> n as real - 1.0 < x <= n as real
  {
    if x >= 0.0 then x.Floor else -((-x).Floor)
  }

  lemma TruncMonotone(x: real, y: real)
    requires x <= y
    ensures Trunc(x) <= Trunc(y)
  {
  }

  /** `_calculate_break_duration`: `int(15 * (1 + fatigue))` minutes. */
  function BreakDuration(fatigue: real): (m: int)
    ensures 0.0 <= fatigue <= 1.0 ==> 15 <= m <= 30
    ensures fatigue >= -1.0 ==> m as real <= 15.0 * (1.0 + fatigue) < m as real + 1.0
    ensures fatigue < -1.0 ==> m as real - 1.0 < 15.0 * (1.0 + fatigue) <= m as real
  {
    Trunc(15.0 * (1.0 + fatigue))
  }

  /** More fatigue never shortens the break. */
  lemma BreakDurationMonotone(f: real, g: real)
    requires f <= g
    ensures BreakDuration(f) <= BreakDuration(g)
  {
    TruncMonotone(15.0 * (1.0 + f), 15.0 * (1.0 + g));
  }

  /** Fatigue 0.8 gives 27 minutes; 0.3 gives 19 (19.5 truncated); and a
      fatigue of -1.5 gives -7, truncated toward zero rather than floored. */
  lemma BreakDurationExamples()
    ensures BreakDuration(0.8) == 27
    ensures BreakDuration(0.3) == 19
    ensures BreakDuration(-1.5) == -7
  {
  }

  // ---------------------------------------------------------------------
  // The session and pattern stores

  /** `m2` is `m` with `m[user][topic]` set to `v`, creating the inner map
      when the user has none, and nothing else changed. */
  ghost predicate Recorded<V>(m: map<string, map<string, V>>, m2: map<string, map<string, V>>,
                              user: string, topic: string, v: V)
  {
    && m2.Keys == m.Keys + {user}
    && topic in m2[user] && m2[user][topic] == v
    && m2[user].Keys == (if user in m then m[user].Keys else {}) + {topic}
    && (forall t :: user in m && t in m[user] && t != topic ==> m2[user][t] == m[user][t])
    && (forall u :: u in m && u != user ==> m2[u] == m[u])
  }

  /** `if user not in m: m[user] = {}` followed by `m[user][topic] = v`. */
  function Put<V>(m: map<string, map<string, V>>, user: string, topic: string, v: V)
    : (r: map<string, map<string, V>>)
    ensures Recorded(m, r, user, topic, v)
  {
    var inner := if user in m then m[user] else map[];
    m[user := inner[topic := v]]
  }

  /** `Recorded` determines the new store. */
  lemma RecordedUnique<V>(m: map<string, map<string, V>>, a: map<string, map<string, V>>,
                          b: map<string, map<string, V>>, user: string, topic: string, v: V)
    requires Recorded(m, a, user, topic, v) && Recorded(m, b, user, topic, v)
    ensures a == b
  {
    assert a[user] == b[user];
  }

  /** Recording the same entry twice is recording it once. */
  lemma PutIdempotent<V>(m: map<string, map<string, V>>, user: string, topic: string, v: V)
    ensures Put(Put(m, user, topic, v), user, topic, v) == Put(m, user, topic, v)
  {
    var once := Put(m, user, topic, v);
    var twice := Put(once, user, topic, v);
    assert Recorded(m, twice, user, topic, v);
    RecordedUnique(m, once, twice, user, topic, v);
  }

  // ---------------------------------------------------------------------
  // track_progress

  datatype FatigueStatus = FatigueStatus(level: real, breakRecommended: bool, suggestedBreak: int)

  datatype Adjustments = Adjustments(
    difficultyChange: real,
    paceChange: string,
    focusAreas: seq<string>,
    revisionNeeds: bool,
    fatigueStatus: FatigueStatus)

  /** `_adjust_difficulty`. */
  function AdjustDifficulty(accuracy: real): (d: real)
    ensures d == 0.1 <==> accuracy > 0.8
    ensures d == -0.1 <==> accuracy <= 0.8
  {
    if accuracy > 0.8 then 0.1 else -0.1
  }

  /** `_adjust_learning_pace`. */
  function AdjustPace(completionRate: real): (p: string)
    ensures p == "increase" <==> completionRate > 0.9
    ensures p == "maintain" <==> completionRate <= 0.9
  {
    if completionRate > 0.9 then "increase" else "maintain"
  }

  /** `_identify_focus_areas`. */
  function FocusAreas(accuracy: real): (f: seq<string>)
    ensures f == ["problem_solving"] <==> accuracy < 0.7
    ensures f == [] <==> accuracy >= 0.7
  {
    if accuracy < 0.7 then ["problem_solving"] else []
  }

  /** `_assess_revision_needs`; revision is needed only when problem
      solving is also a focus area. */
  function RevisionNeeds(accuracy: real): (b: bool)
    ensures b <==> accuracy < 0.6
    ensures b ==> FocusAreas(accuracy) == ["problem_solving"]
  {
    accuracy < 0.6
  }

  /** What the adjustments promise for accuracy `acc`, completion rate `cr`
      and attempt-trend fatigue `f`. */
  ghost predicate AdjustmentsFor(acc: real, cr: real, f: real, a: Adjustments) {
    && (a.difficultyChange == 0.1 <==> acc > 0.8)
    && (a.difficultyChange == -0.1 <==> acc <= 0.8)
    && (a.paceChange == "increase" <==> cr > 0.9)
    && (a.paceChange == "maintain" <==> cr <= 0.9)
    && (a.focusAreas == ["problem_solving"] <==> acc < 0.7)
    && (a.focusAreas == [] <==> acc >= 0.7)
    && (a.revisionNeeds <==> acc < 0.6)
    && a.fatigueStatus.level == f
    && (a.fatigueStatus.breakRecommended <==> f > 0.7)
    && a.fatigueStatus.suggestedBreak == BreakDuration(f)
  }

  /** The adjustments dict, evaluated in source order: the first missing key
      among `accuracy` and `completion_rate` raises. */
  function Adjust(perf: TopicData, fatigue: real): (r: Result<Adjustments>)
    ensures perf.accuracy.None? ==> r == Failure(KeyError("accuracy"))
    ensures perf.accuracy.Some? && perf.completionRate.None? ==> r == Failure(KeyError("completion_rate"))
    ensures r.Success? <==> perf.accuracy.Some? && perf.completionRate.Some?
    ensures r.Success? ==> AdjustmentsFor(perf.accuracy.value, perf.completionRate.value, fatigue, r.value)
  {
    match (perf.accuracy, perf.completionRate)
    case (None, _) => Failure(KeyError("accuracy"))
    case (Some(_), None) => Failure(KeyError("completion_rate"))
    case (Some(acc), Some(cr)) =>
      Success(Adjustments(
        AdjustDifficulty(acc),
        AdjustPace(cr),
        FocusAreas(acc),
        RevisionNeeds(acc),
        FatigueStatus(fatigue, fatigue > 0.7, BreakDuration(fatigue))))
  }

  /** `profiles` with `fatigue_pattern[topic] = f` written into the profile
      of `user`. */
  function SetFatigue(profiles: map<string, Profile>, user: string, topic: string, f: real)
    : (r: map<string, Profile>)
    requires user in profiles
    ensures r.Keys == profiles.Keys
    ensures r[user].fatiguePattern == profiles[user].fatiguePattern[topic := f]
    ensures r[user].learningSpeed == profiles[user].learningSpeed
    ensures r[user].accuracyHistory == profiles[user].accuracyHistory
    ensures forall u :: u in profiles && u != user ==> r[u] == profiles[u]
  {
    var p := profiles[user];
    profiles[user := p.(fatiguePattern := p.fatiguePattern[topic := f])]
  }

  lemma SetFatigueIdempotent(profiles: map<string, Profile>, user: string, topic: string, f: real)
    requires user in profiles
    ensures var p := SetFatigue(profiles, user, topic, f);
            SetFatigue(p, user, topic, f) == p
  {
    var p := SetFatigue(profiles, user, topic, f);
    var q := SetFatigue(p, user, topic, f);
    assert q[user].fatiguePattern == p[user].fatiguePattern;
    assert q[user] == p[user];
    assert forall u :: u in q ==> q[u] == p[u];
  }

  /** `track_progress`: a user without a profile raises `KeyError` before
      anything is written. Otherwise the topic's timestamp and performance
      record are stored first; a record without `exercise_attempts` then
      raises; the attempt-trend fatigue is written into the profile; and
      the adjustments follow the threshold rules, raising on a missing
      `accuracy` or `completion_rate`. */
  function TrackProgress(st: LearningState, user: string, topic: string, perf: TopicData, now: real)
    : (o: Outcome<Adjustments>)
    ensures user !in st.profiles ==> o == Outcome(st, Failure(KeyError(user)))
    ensures user in st.profiles ==>
              && Recorded(st.sessions, o.state.sessions, user, topic, Timestamp(now))
              && Recorded(st.patterns, o.state.patterns, user, topic, perf)
    ensures user in st.profiles ==>
              (o.result == Failure(KeyError("exercise_attempts")) <==> perf.attempts.None?)
    ensures perf.attempts.None? ==> o.state.profiles == st.profiles
    ensures user in st.profiles && perf.attempts.Some? ==>
              && o.state.profiles.Keys == st.profiles.Keys
              && o.state.profiles[user].fatiguePattern
                   == st.profiles[user].fatiguePattern[topic := FatigueLevel(perf.attempts.value)]
              && o.state.profiles[user].learningSpeed == st.profiles[user].learningSpeed
              && o.state.profiles[user].accuracyHistory == st.profiles[user].accuracyHistory
              && (forall u :: u in st.profiles && u != user ==> o.state.profiles[u] == st.profiles[u])
    ensures user in st.profiles ==>
              (o.result == Failure(KeyError("accuracy")) <==> perf.attempts.Some? && perf.accuracy.None?)
    ensures user in st.profiles ==>
              (o.result == Failure(KeyError("completion_rate")) <==>
                 perf.attempts.Some? && perf.accuracy.Some? && perf.completionRate.None?)
    ensures o.result.Success? ==>
              && perf.attempts.Some? && perf.accuracy.Some? && perf.completionRate.Some?
              && AdjustmentsFor(perf.accuracy.value, perf.completionRate.value,
                                FatigueLevel(perf.attempts.value), o.result.value)
              && 15 <= o.result.value.fatigueStatus.suggestedBreak <= 30
  {
    if user !in st.profiles then Outcome(st, Failure(KeyError(user)))
    else
      var written := st.(sessions := Put(st.sessions, user, topic, Timestamp(now)),
                         patterns := Put(st.patterns, user, topic, perf));
      match perf.attempts
      case None => Outcome(written, Failure(KeyError("exercise_attempts")))
      case Some(a) =>
        var f := FatigueLevel(a);
        Outcome(written.(profiles := SetFatigue(st.profiles, user, topic, f)), Adjust(perf, f))
  }

  /** Tracking the same record twice at the same time changes nothing the
      second time. */
  lemma TrackProgressIdempotent(st: LearningState, user: string, topic: string, perf: TopicData, now: real)
    ensures var o := TrackProgress(st, user, topic, perf, now);
            TrackProgress(o.state, user, topic, perf, now) == o
  {
    var o := TrackProgress(st, user, topic, perf, now);
    if user in st.profiles {
      PutIdempotent(st.sessions, user, topic, Timestamp(now));
      PutIdempotent(st.patterns, user, topic, perf);
      if perf.attempts.Some? {
        var f := FatigueLevel(perf.attempts.value);
        SetFatigueIdempotent(st.profiles, user, topic, f);
      }
    }
  }

  /** The progress-tracking call of the system's own test harness: the
      performance record has no `exercise_attempts`, so the call raises
      `KeyError` after storing the timestamp and the record. */
  lemma TrackProgressHarnessExample(st: LearningState, now: real)
    requires "test_user_001" in st.profiles
    ensures var perf := TopicData(Some("math_101"), None, None, Some(0.85), Some(0.9), None);
            var o := TrackProgress(st, "test_user_001", "math_101", perf, now);
            && o.result == Failure(KeyError("exercise_attempts"))
            && o.state.sessions["test_user_001"]["math_101"] == Timestamp(now)
            && o.state.profiles == st.profiles
  {
  }

  // ---------------------------------------------------------------------
  // Current fatigue over the store track_progress fills

  /** No user's session store has a `recent_activities` entry. */
  ghost predicate NoActivityLog(st: LearningState) {
    forall u :: u in st.sessions ==> RecentActivities !in st.sessions[u]
  }

  /** Tracking a topic with another name keeps the store free of a
      `recent_activities` entry. */
  lemma TrackProgressKeepsNoActivityLog(st: LearningState, user: string, topic: string,
                                        perf: TopicData, now: real)
    requires NoActivityLog(st) && topic != RecentActivities
    ensures NoActivityLog(TrackProgress(st, user, topic, perf, now).state)
  {
  }

  /** On such a store the current fatigue is always 0: the analysis reads the
      log from the map that holds topic timestamps. */
  lemma CurrentFatigueWithoutLog(st: LearningState, user: string)
    requires NoActivityLog(st)
    ensures CurrentFatigue(st, user) == Success(0.0)
  {
  }

  /** Tracking a topic literally named `recent_activities` at a non-zero time
      makes the current-fatigue analysis raise `TypeError`. */
  lemma CurrentFatigueAfterTopicNamedLog(st: LearningState, user: string, perf: TopicData, now: real)
    requires user in st.profiles && now != 0.0
    ensures CurrentFatigue(TrackProgress(st, user, RecentActivities, perf, now).state, user).Failure?
  {
  }

  // ---------------------------------------------------------------------
  // Retention and the ability analysis

  /** `_calculate_retention_rate`: 1 for a user without sessions; otherwise
      a missing `topic_id` raises, and the forgetting curve `decay` is
      applied to the hours since the topic's timestamp (0 hours when the
      topic has none; a session log in its place cannot be subtracted). */
  function RetentionRate(st: LearningState, user: string, topicId: Option<string>, now: real,
                         decay: real -> real): (r: Result<real>)
    ensures user !in st.sessions ==> r == Success(1.0)
    ensures user in st.sessions && topicId.None? ==> r == Failure(KeyError("topic_id"))
    ensures user in st.sessions && topicId.Some? && topicId.value !in st.sessions[user] ==>
              r == Success(decay(0.0))
    ensures user in st.sessions && topicId.Some? && topicId.value in st.sessions[user] ==>
              match st.sessions[user][topicId.value]
              case Timestamp(t) => r == Success(decay((now - t) / 3600.0))
              case Activities(_) => r.Failure? && r.error.TypeError?
  {
    if user !in st.sessions then Success(1.0)
    else
      match topicId
      case None => Failure(KeyError("topic_id"))
      case Some(topic) =>
        var last := if topic in st.sessions[user] then st.sessions[user][topic] else Timestamp(now);
        match last
        case Timestamp(t) => Success(decay((now - t) / 3600.0))
        case Activities(_) => Failure(TypeError("unsupported operand type(s) for -: 'float' and 'list'"))
  }

  /** Right after tracking a topic, its retention is the curve at 0 hours. */
  lemma RetentionAfterTrack(st: LearningState, user: string, topic: string, perf: TopicData,
                            now: real, decay: real -> real)
    requires user in st.profiles
    ensures RetentionRate(TrackProgress(st, user, topic, perf, now).state, user, Some(topic), now, decay)
              == Success(decay(0.0))
  {
    var o := TrackProgress(st, user, topic, perf, now);
    assert o.state.sessions[user][topic] == Timestamp(now);
    assert (now - now) / 3600.0 == 0.0;
  }

  datatype AbilityMetrics = AbilityMetrics(
    comprehensionSpeed: real,
    accuracyRate: real,
    consistency: real,
    difficultyHandling: real,
    fatigueLevel: real,
    retentionRate: real)

  /** `_analyze_difficulty_adaptation`: the record's `correct_rate`, 0 when
      absent. */
  function DifficultyHandling(td: TopicData): (r: real)
    ensures td.correctRate.Some? ==> r == td.correctRate.value
    ensures td.correctRate.None? ==> r == 0.0
  {
    td.correctRate.GetOr(0.0)
  }

  /** `_update_user_profile`: nothing without a profile; otherwise the
      current learning speed is overwritten and the accuracy appended to the
      accuracy history. */
  function UpdateProfile(profiles: map<string, Profile>, user: string, m: AbilityMetrics)
    : (r: map<string, Profile>)
    ensures user !in profiles ==> r == profiles
    ensures r.Keys == profiles.Keys
    ensures forall u :: u in profiles && u != user ==> r[u] == profiles[u]
    ensures user in profiles ==>
              && r[user].learningSpeed == profiles[user].learningSpeed["current" := m.comprehensionSpeed]
              && r[user].accuracyHistory == profiles[user].accuracyHistory + [m.accuracyRate]
              && r[user].fatiguePattern == profiles[user].fatiguePattern
  {
    if user !in profiles then profiles
    else
      var p := profiles[user];
      profiles[user := p.(learningSpeed := p.learningSpeed["current" := m.comprehensionSpeed],
                          accuracyHistory := p.accuracyHistory + [m.accuracyRate])]
  }

  /** The first five metrics are the formulas applied to attempts `a` of
      record `td`, with the ranges those formulas guarantee. */
  ghost predicate MetricsFor(td: TopicData, a: seq<Attempt>, m: AbilityMetrics) {
    && m.comprehensionSpeed == ComprehensionSpeed(td.completionTime, a)
    && m.accuracyRate == Accuracy(a)
    && m.consistency == Consistency(a)
    && m.fatigueLevel == FatigueLevel(a)
    && m.comprehensionSpeed >= 0.0
    && (td.completionTime.GetOr(0.0) > 0.0 && CorrectCount(a) > 0 ==> m.comprehensionSpeed > 0.0)
    && 0.0 <= m.accuracyRate <= 1.0
    && (a == [] ==> m.consistency == 0.0)
    && (a != [] ==> 0.0 < m.consistency <= 1.0)
    && m.difficultyHandling == td.correctRate.GetOr(0.0)
    && 0.0 <= m.fatigueLevel <= 1.0
  }

  /** The metrics dict of `analyze_learning_ability`, given the retention. */
  function Metrics(td: TopicData, a: seq<Attempt>, retention: real): (m: AbilityMetrics)
    ensures MetricsFor(td, a, m) && m.retentionRate == retention
  {
    var speed := ComprehensionSpeed(td.completionTime, a);
    var accuracy := Accuracy(a);
    var consistency := Consistency(a);
    var difficulty := DifficultyHandling(td);
    var fatigue := FatigueLevel(a);
    AbilityMetrics(speed, accuracy, consistency, difficulty, fatigue, retention)
  }

  /** `analyze_learning_ability`: the six metrics of one topic record, then
      the profile update. A record without `exercise_attempts` raises first;
      a missing `topic_id` raises only for a user with sessions. Nothing but
      the user's profile changes. */
  function AnalyzeLearningAbility(st: LearningState, user: string, td: TopicData, now: real,
                                  decay: real -> real): (o: Outcome<AbilityMetrics>)
    ensures td.attempts.None? ==> o == Outcome(st, Failure(KeyError("exercise_attempts")))
    ensures td.attempts.Some? && user in st.sessions && td.topicId.None? ==>
              o == Outcome(st, Failure(KeyError("topic_id")))
    ensures o.result.Failure? ==> o.state == st
    ensures o.result.Success? ==>
              && td.attempts.Some?
              && MetricsFor(td, td.attempts.value, o.result.value)
              && (user !in st.sessions ==> o.result.value.retentionRate == 1.0)
              && o.state == st.(profiles := UpdateProfile(st.profiles, user, o.result.value))
  {
    match td.attempts
    case None => Outcome(st, Failure(KeyError("exercise_attempts")))
    case Some(a) =>
      match RetentionRate(st, user, td.topicId, now, decay)
      case Failure(e) => Outcome(st, Failure(e))
      case Success(retention) =>
        var m := Metrics(td, a, retention);
        Outcome(st.(profiles := UpdateProfile(st.profiles, user, m)), Success(m))
  }

  /** The ability analysis of the system's own test harness: times 5, 8, 6
      with the second answer wrong, completion time 45 and correct rate
      0.85, for a profiled user without sessions. */
  lemma AnalyzeHarnessExample(st: LearningState, decay: real -> real, now: real)
    requires "test_user_001" in st.profiles && "test_user_001" !in st.sessions
    ensures var td := TopicData(Some("math_101"), Some(45.0), Some(0.85), None, None, Some(AbilitySample()));
            var o := AnalyzeLearningAbility(st, "test_user_001", td, now, decay);
            && o.result == Success(AbilityMetrics(2.0 / 45.0, 2.0 / 3.0, 9.0 / 23.0, 0.85, 0.3, 1.0))
            && o.state.profiles["test_user_001"].accuracyHistory
                 == st.profiles["test_user_001"].accuracyHistory + [2.0 / 3.0]
  {
    AccuracyExample();
    ConsistencyExample();
    AbilityFatigueExample();
  }

  /** The harness attempts 5, 8, 6 (right, wrong, right) give fatigue 0.3. */
  lemma AbilityFatigueExample()
    ensures FatigueLevel(AbilitySample()) == 0.3
  {
    FatigueClosedForm(AbilitySample());
  }
}
