/** The arithmetic and selection rules of the service layer: user
    statistics, difficulty handling, problem recommendation, learning-path
    progress and activity tracking. Database queries are replaced by the
    sequences of rows they return, in the order they return them. */
module Services {
  import opened Wrappers
  import opened Seqs
  import opened Reals
  import opened Analytics

  /** A submission row, with the difficulty of its problem. */
  datatype Submission = Submission(problemId: int, isCorrect: bool, timeSpent: real, difficulty: string)

  /** A problem row. */
  datatype Problem = Problem(id: int, difficulty: string, averageTime: real)

  /** Submissions as attempts of the ability formulas. */
  function AsAttempts(s: seq<Submission>): (a: seq<Attempt>)
    ensures |a| == |s|
    ensures forall i :: 0 <= i < |s| ==> a[i] == Attempt(s[i].timeSpent, s[i].isCorrect)
  {
    seq(|s|, i requires 0 <= i < |s| => Attempt(s[i].timeSpent, s[i].isCorrect))
  }

  // ---------------------------------------------------------------------
  // UserService.get_user_statistics

  datatype UserStatistics = UserStatistics(
    totalTime: real,
    activityCount: nat,
    averageEffectiveness: real,
    fatigueLevel: real)

  /** The statistics of the last day's submissions: total time, count, the
      fraction answered correctly (0 without submissions), and a fatigue of
      hours spent times the fraction answered wrongly, capped at 1. */
  function GetUserStatistics(recent: seq<Submission>): (r: UserStatistics)
    ensures recent == [] ==> r == UserStatistics(0.0, 0, 0.0, 0.0)
    ensures r.activityCount == |recent|
    ensures r.totalTime == Sum(Times(AsAttempts(recent)))
    ensures 0.0 <= r.averageEffectiveness <= 1.0
    ensures r.averageEffectiveness == Accuracy(AsAttempts(recent))
    ensures recent != [] ==> (r.averageEffectiveness == 1.0 <==> forall i :: 0 <= i < |recent| ==> recent[i].isCorrect)
    ensures r.fatigueLevel == StatisticsFatigue(r.totalTime, r.averageEffectiveness)
    ensures r.fatigueLevel <= 1.0
    ensures (forall i :: 0 <= i < |recent| ==> recent[i].timeSpent >= 0.0) ==> r.fatigueLevel >= 0.0
    ensures recent != [] && (forall i :: 0 <= i < |recent| ==> recent[i].isCorrect) ==> r.fatigueLevel == 0.0
  {
    var total := if recent != [] then Sum(Times(AsAttempts(recent))) else 0.0;
    var effectiveness := Accuracy(AsAttempts(recent));
    SumNonNegative(Times(AsAttempts(recent)));
    UserStatistics(total, |recent|, effectiveness, StatisticsFatigue(total, effectiveness))
  }

  /** Hours spent times the fraction answered wrongly, capped at 1. */
  function StatisticsFatigue(totalSeconds: real, effectiveness: real): (f: real)
    ensures f <= 1.0
    ensures totalSeconds * (1.0 - effectiveness) < 3600.0 ==> f * 3600.0 == totalSeconds * (1.0 - effectiveness)
    ensures totalSeconds * (1.0 - effectiveness) >= 3600.0 ==> f == 1.0
    ensures totalSeconds >= 0.0 && effectiveness <= 1.0 ==> f >= 0.0
    ensures effectiveness == 1.0 ==> f == 0.0
  {
    ProductNonNegative(totalSeconds / 3600.0, 1.0 - effectiveness);
    Min(1.0, (totalSeconds / 3600.0) * (1.0 - effectiveness))
  }

  /** Two half-hour submissions, one of them correct: an hour in total,
      effectiveness 0.5 and fatigue 0.5. */
  lemma UserStatisticsExample()
    ensures GetUserStatistics([Submission(1, true, 1800.0, "easy"), Submission(2, false, 1800.0, "hard")])
              == UserStatistics(3600.0, 2, 0.5, 0.5)
  {
    var s := [Submission(1, true, 1800.0, "easy"), Submission(2, false, 1800.0, "hard")];
    assert Times(AsAttempts(s)) == [1800.0, 1800.0];
    assert Sum([1800.0]) == 1800.0 + Sum([]);
    assert Sum([1800.0, 1800.0]) == 1800.0 + Sum([1800.0]);
    var a := AsAttempts(s);
    assert a[1..][1..] == [];
    assert CorrectCount(a) == 1;
  }

  // ---------------------------------------------------------------------
  // RecommendationService._calculate_difficulty_handling

  /** The three difficulty names the bucket dict knows. */
  predicate IsLevel(d: string) {
    d == "easy" || d == "medium" || d == "hard"
  }

  /** The 1/0 correctness of the submissions of difficulty `d`, in order. */
  function Bucket(s: seq<Submission>, d: string): (b: seq<real>)
    ensures forall i :: 0 <= i < |b| ==> b[i] == 0.0 || b[i] == 1.0
    ensures b == [] <==> forall i :: 0 <= i < |s| ==> s[i].difficulty != d
  {
    if s == [] then []
    else
      var rest := Bucket(s[1..], d);
      assert forall i :: 1 <= i < |s| ==> s[i] == s[1..][i - 1];
      if s[0].difficulty == d then
        var b := [if s[0].isCorrect then 1.0 else 0.0] + rest;
        assert forall i :: 1 <= i < |b| ==> b[i] == rest[i - 1];
        b
      else rest
  }

  /** No submission of difficulty `d` is correct. */
  ghost predicate AllWrong(s: seq<Submission>, d: string) {
    forall i :: 0 <= i < |s| && s[i].difficulty == d ==> !s[i].isCorrect
  }

  /** A bucket holds only zeros exactly when no submission of its
      difficulty is correct. */
  lemma {:induction false} BucketAllWrong(s: seq<Submission>, d: string)
    ensures (forall i :: 0 <= i < |Bucket(s, d)| ==> Bucket(s, d)[i] == 0.0) <==> AllWrong(s, d)
    decreases |s|
  {
    if s != [] {
      BucketAllWrong(s[1..], d);
      assert forall i :: 1 <= i < |s| ==> s[i] == s[1..][i - 1];
      assert AllWrong(s, d) <==> (s[0].difficulty == d ==> !s[0].isCorrect) && AllWrong(s[1..], d);
      var rest := Bucket(s[1..], d);
      if s[0].difficulty == d {
        var b := Bucket(s, d);
        assert b == [if s[0].isCorrect then 1.0 else 0.0] + rest;
        assert forall i :: 1 <= i < |b| ==> b[i] == rest[i - 1];
        assert (forall i :: 0 <= i < |b| ==> b[i] == 0.0) <==>
                 b[0] == 0.0 && forall i :: 0 <= i < |rest| ==> rest[i] == 0.0 by {
          if forall i :: 0 <= i < |rest| ==> rest[i] == 0.0 {
            assert forall i :: 1 <= i < |b| ==> b[i] == 0.0;
          }
          if forall i :: 0 <= i < |b| ==> b[i] == 0.0 {
            forall i | 0 <= i < |rest| ensures rest[i] == 0.0 {
              assert b[i + 1] == rest[i];
            }
          }
        }
      } else {
        assert Bucket(s, d) == rest;
      }
    }
  }

  /** The number of submissions of difficulty `d`. */
  function CountOf(s: seq<Submission>, d: string): nat {
    if s == [] then 0 else (if s[0].difficulty == d then 1 else 0) + CountOf(s[1..], d)
  }

  /** The number of correct submissions of difficulty `d`. */
  function CorrectOf(s: seq<Submission>, d: string): nat {
    if s == [] then 0 else (if s[0].difficulty == d && s[0].isCorrect then 1 else 0) + CorrectOf(s[1..], d)
  }

  /** The accuracy on difficulty `d`: correct answers over answers. */
  function LevelAccuracy(s: seq<Submission>, d: string): real
    requires CountOf(s, d) > 0
  {
    CorrectOf(s, d) as real / CountOf(s, d) as real
  }

  /** A bucket has one entry per submission of its difficulty, and its
      entries add up to the number answered correctly. */
  lemma {:induction false} BucketCounts(s: seq<Submission>, d: string)
    ensures |Bucket(s, d)| == CountOf(s, d)
    ensures Sum(Bucket(s, d)) == CorrectOf(s, d) as real
    decreases |s|
  {
    if s != [] {
      BucketCounts(s[1..], d);
      if s[0].difficulty == d {
        var rest := Bucket(s[1..], d);
        var x := if s[0].isCorrect then 1.0 else 0.0;
        assert Bucket(s, d) == [x] + rest;
        assert ([x] + rest)[1..] == rest;
      }
    }
  }

  /** The weighted score of difficulty `d` — bucket accuracy times `w` —
      when the bucket is non-empty, and nothing otherwise. */
  function BucketScore(s: seq<Submission>, d: string, w: real): (sc: seq<real>)
    requires w > 0.0
    ensures |sc| <= 1
    ensures sc == [] <==> forall i :: 0 <= i < |s| ==> s[i].difficulty != d
    ensures sc != [] ==> CountOf(s, d) > 0 && sc[0] == LevelAccuracy(s, d) * w
    ensures sc != [] ==> 0.0 <= sc[0] <= w
    ensures sc != [] ==> (sc[0] == 0.0 <==> AllWrong(s, d))
  {
    var b := Bucket(s, d);
    if b == [] then []
    else
      var m := Mean(b) * w;
      BucketMeanFacts(s, d, w);
      BucketMeanIsAccuracy(s, d);
      assert [m][0] == m;
      [m]
  }

  /** The bounds of a non-empty bucket's weighted mean, and when it is 0. */
  lemma BucketMeanFacts(s: seq<Submission>, d: string, w: real)
    requires w > 0.0 && Bucket(s, d) != []
    ensures 0.0 <= Mean(Bucket(s, d)) * w <= w
    ensures Mean(Bucket(s, d)) * w == 0.0 <==> AllWrong(s, d)
  {
    var b := Bucket(s, d);
    BucketAllWrong(s, d);
    MeanBounds(b, 0.0, 1.0);
    MeanZeroIff(b);
    ScaleFacts(Mean(b), w);
  }

  /** A non-empty bucket's mean is the accuracy on its difficulty. */
  lemma BucketMeanIsAccuracy(s: seq<Submission>, d: string)
    requires Bucket(s, d) != []
    ensures CountOf(s, d) > 0 && Mean(Bucket(s, d)) == LevelAccuracy(s, d)
  {
    BucketCounts(s, d);
  }

  /** The scores of the non-empty buckets, easy (weight 1), medium (2) and
      hard (3). */
  function Scores(s: seq<Submission>): (sc: seq<real>)
    ensures sc == BucketScore(s, "easy", 1.0) + BucketScore(s, "medium", 2.0) + BucketScore(s, "hard", 3.0)
    ensures forall x :: x in sc ==> 0.0 <= x <= 3.0
    ensures sc == [] <==> forall i :: 0 <= i < |s| ==> !IsLevel(s[i].difficulty)
    ensures (forall x :: x in sc ==> x == 0.0) <==>
              forall i :: 0 <= i < |s| && IsLevel(s[i].difficulty) ==> !s[i].isCorrect
  {
    var e, m, h := BucketScore(s, "easy", 1.0), BucketScore(s, "medium", 2.0), BucketScore(s, "hard", 3.0);
    SingletonsZero(e, m, h);
    assert (e != [] ==> e[0] == 0.0) <==> AllWrong(s, "easy");
    assert (m != [] ==> m[0] == 0.0) <==> AllWrong(s, "medium");
    assert (h != [] ==> h[0] == 0.0) <==> AllWrong(s, "hard");
    assert AllWrong(s, "easy") && AllWrong(s, "medium") && AllWrong(s, "hard") <==>
             forall i :: 0 <= i < |s| && IsLevel(s[i].difficulty) ==> !s[i].isCorrect;
    e + m + h
  }

  lemma SingletonsZero(e: seq<real>, m: seq<real>, h: seq<real>)
    requires |e| <= 1 && |m| <= 1 && |h| <= 1
    ensures forall x :: x in e + m + h <==> (e != [] && x == e[0]) || (m != [] && x == m[0]) || (h != [] && x == h[0])
    ensures (forall x :: x in e + m + h ==> x == 0.0) <==>
              (e != [] ==> e[0] == 0.0) && (m != [] ==> m[0] == 0.0) && (h != [] ==> h[0] == 0.0)
  {
    assert forall x :: x in e <==> e != [] && x == e[0];
    assert forall x :: x in m <==> m != [] && x == m[0];
    assert forall x :: x in h <==> h != [] && x == h[0];
    if forall x :: x in e + m + h ==> x == 0.0 {
      if e != [] { assert e[0] in e + m + h; }
      if m != [] { assert m[0] in e + m + h; }
      if h != [] { assert h[0] in e + m + h; }
    }
  }

  /** The index of the first submission whose difficulty is not a known
      level, if any. */
  function FirstUnknown(s: seq<Submission>): (k: Option<nat>)
    ensures k.None? <==> forall i :: 0 <= i < |s| ==> IsLevel(s[i].difficulty)
    ensures k.Some? ==> k.value < |s| && !IsLevel(s[k.value].difficulty)
    ensures k.Some? ==> forall j :: 0 <= j < k.value ==> IsLevel(s[j].difficulty)
  {
    if s == [] then None
    else if !IsLevel(s[0].difficulty) then Some(0)
    else
      assert forall i :: 1 <= i < |s| ==> s[i] == s[1..][i - 1];
      match FirstUnknown(s[1..])
      case None => None
      case Some(k) => Some(k + 1)
  }

  /** `_calculate_difficulty_handling`: 0 without submissions; a `KeyError`
      naming the first difficulty that is not easy, medium or hard;
      otherwise the mean, over the non-empty buckets only, of bucket
      accuracy times the bucket's weight. */
  function DifficultyHandling(s: seq<Submission>): (r: Result<real>)
    ensures s == [] ==> r == Success(0.0)
    ensures r.Failure? <==> exists i :: 0 <= i < |s| && !IsLevel(s[i].difficulty)
    ensures r.Failure? ==>
              exists k :: 0 <= k < |s| && r.error == KeyError(s[k].difficulty)
                && !IsLevel(s[k].difficulty)
                && forall j :: 0 <= j < k ==> IsLevel(s[j].difficulty)
    ensures r.Success? && s != [] ==> Scores(s) != [] && r.value == Sum(Scores(s)) / (|Scores(s)| as real)
    ensures r.Success? ==> 0.0 <= r.value <= 3.0
    ensures r.Success? && s != [] ==> (r.value == 0.0 <==> forall i :: 0 <= i < |s| ==> !s[i].isCorrect)
  {
    if s == [] then Success(0.0)
    else
      match FirstUnknown(s)
      case Some(k) => Failure(KeyError(s[k].difficulty))
      case None =>
        DifficultyMean(s);
        Success(Mean(Scores(s)))
  }

  /** The mean of the bucket scores lies within their bounds. */
  lemma MeanOfScores(sc: seq<real>)
    requires sc != [] && forall x :: x in sc ==> 0.0 <= x <= 3.0
    ensures 0.0 <= Mean(sc) <= 3.0
    ensures Mean(sc) == 0.0 <==> forall x :: x in sc ==> x == 0.0
  {
    assert forall i :: 0 <= i < |sc| ==> sc[i] in sc;
    MeanBounds(sc, 0.0, 3.0);
    MeanZeroIff(sc);
  }

  /** With every difficulty a known level, there is a bucket score, and
      their mean lies in [0, 3] and is 0 exactly when no answer is
      correct. */
  lemma DifficultyMean(s: seq<Submission>)
    requires s != [] && forall i :: 0 <= i < |s| ==> IsLevel(s[i].difficulty)
    ensures Scores(s) != []
    ensures 0.0 <= Mean(Scores(s)) <= 3.0
    ensures Mean(Scores(s)) == 0.0 <==> forall i :: 0 <= i < |s| ==> !s[i].isCorrect
  {
    var sc := Scores(s);
    assert sc != [] by { assert IsLevel(s[0].difficulty); }
    MeanOfScores(sc);
  }

  /** An easy problem solved and a hard one failed score 0.5: the buckets
      give 1 and 0, and the empty medium bucket is not averaged in. */
  lemma DifficultyHandlingExample()
    ensures DifficultyHandling([Submission(1, true, 60.0, "easy"), Submission(2, false, 60.0, "hard")])
              == Success(0.5)
  {
    var s := [Submission(1, true, 60.0, "easy"), Submission(2, false, 60.0, "hard")];
    assert s[1..][1..] == [];
    assert Bucket(s, "easy") == [1.0];
    assert Bucket(s, "medium") == [];
    assert Bucket(s, "hard") == [0.0];
    assert Mean([1.0]) == 1.0 by { assert Sum([1.0]) == 1.0 + Sum([]); }
    assert Mean([0.0]) == 0.0 by { assert Sum([0.0]) == 0.0 + Sum([]); }
    assert Scores(s) == [1.0, 0.0];
    assert Sum([1.0, 0.0]) == 1.0 by {
      assert Sum([0.0]) == 0.0 + Sum([]);
      assert [1.0, 0.0][1..] == [0.0];
    }
  }

  /** A difficulty outside the three levels raises `KeyError` with its name,
      even after known ones. */
  lemma DifficultyHandlingUnknownExample()
    ensures DifficultyHandling([Submission(1, true, 60.0, "easy"), Submission(2, true, 60.0, "expert")])
              == Failure(KeyError("expert"))
  {
    var s := [Submission(1, true, 60.0, "easy"), Submission(2, true, 60.0, "expert")];
    assert IsLevel("easy") && !IsLevel("expert");
    assert FirstUnknown(s) == Some(1) by {
      assert !IsLevel(s[1..][0].difficulty);
    }
  }

  // ---------------------------------------------------------------------
  // RecommendationService.recommend_problems

  /** The difficulty chosen for a skill level. */
  function ChooseDifficulty(skill: real): (d: string)
    ensures IsLevel(d)
    ensures d == "easy" <==> skill < 0.3
    ensures d == "medium" <==> 0.3 <= skill < 0.7
    ensures d == "hard" <==> skill >= 0.7
  {
    if skill < 0.3 then "easy" else if skill < 0.7 then "medium" else "hard"
  }

  /** The position of a level in easy < medium < hard. */
  function LevelRank(d: string): int {
    if d == "easy" then 0 else if d == "medium" then 1 else 2
  }

  /** A higher skill never gets an easier difficulty. */
  lemma ChooseDifficultyMonotone(x: real, y: real)
    requires x <= y
    ensures LevelRank(ChooseDifficulty(x)) <= LevelRank(ChooseDifficulty(y))
  {
  }

  /** The ids of the problems the user has solved correctly. */
  function CompletedIds(subs: seq<Submission>): (c: seq<int>)
    ensures forall id :: id in c <==> exists i :: 0 <= i < |subs| && subs[i].isCorrect && subs[i].problemId == id
  {
    if subs == [] then []
    else
      assert forall i :: 1 <= i < |subs| ==> subs[i] == subs[1..][i - 1];
      (if subs[0].isCorrect then [subs[0].problemId] else []) + CompletedIds(subs[1..])
  }

  predicate Eligible(p: Problem, difficulty: string, completed: seq<int>) {
    p.difficulty == difficulty && p.id !in completed
  }

  function EligibleCount(ps: seq<Problem>, difficulty: string, completed: seq<int>): nat {
    if ps == [] then 0
    else (if Eligible(ps[0], difficulty, completed) then 1 else 0) + EligibleCount(ps[1..], difficulty, completed)
  }

  /** The first `count` eligible problems, in table order (`filter` then
      `limit`). */
  function Pick(ps: seq<Problem>, difficulty: string, completed: seq<int>, count: nat): (r: seq<Problem>)
    ensures SubSeq(r, ps)
    ensures forall i :: 0 <= i < |r| ==> Eligible(r[i], difficulty, completed)
    ensures |r| == MinInt(count, EligibleCount(ps, difficulty, completed))
    ensures |r| < count ==> forall i :: 0 <= i < |ps| && Eligible(ps[i], difficulty, completed) ==> ps[i] in r
    ensures forall i ::
              0 <= i < |ps| && Eligible(ps[i], difficulty, completed) && EligibleCount(ps[..i], difficulty, completed) < count
              ==> ps[i] in r
  {
    if ps == [] || count == 0 then []
    else
      var rest := if Eligible(ps[0], difficulty, completed) then Pick(ps[1..], difficulty, completed, count - 1)
                  else Pick(ps[1..], difficulty, completed, count);
      assert forall i :: 1 <= i < |ps| ==> ps[i] == ps[1..][i - 1];
      assert forall i :: 1 <= i <= |ps| ==> ps[..i][0] == ps[0] && ps[..i][1..] == ps[1..][..i - 1];
      if Eligible(ps[0], difficulty, completed) then
        var r := [ps[0]] + rest;
        assert r[1..] == rest;
        r
      else rest
  }

  /** `recommend_problems`: at most `count` problems of the difficulty the
      skill level selects, none of them solved correctly before, taken in
      table order; fewer than `count` only when no other problem
      qualifies. */
  function RecommendProblems(problems: seq<Problem>, subs: seq<Submission>, skill: real, count: nat)
    : (r: seq<Problem>)
    ensures |r| <= count
    ensures SubSeq(r, problems)
    ensures forall i :: 0 <= i < |r| ==> r[i].difficulty == ChooseDifficulty(skill)
    ensures forall i, j :: 0 <= i < |r| && 0 <= j < |subs| && subs[j].isCorrect ==> r[i].id != subs[j].problemId
    ensures |r| < count ==>
              forall i :: 0 <= i < |problems| && problems[i].difficulty == ChooseDifficulty(skill)
                && (forall j :: 0 <= j < |subs| && subs[j].isCorrect ==> problems[i].id != subs[j].problemId)
                ==> problems[i] in r
  {
    var completed := CompletedIds(subs);
    var r := Pick(problems, ChooseDifficulty(skill), completed, count);
    assert forall i, j :: 0 <= i < |r| && 0 <= j < |subs| && subs[j].isCorrect ==> r[i].id != subs[j].problemId by {
      forall i, j | 0 <= i < |r| && 0 <= j < |subs| && subs[j].isCorrect
        ensures r[i].id != subs[j].problemId
      {
        assert subs[j].problemId in completed;
      }
    }
    r
  }

  // ---------------------------------------------------------------------
  // LearningPathService

  datatype DifficultyCurve = DifficultyCurve(initialDifficulty: int, maxDifficulty: int, stages: int, curveType: string)

  /** A learning-path row: the columns the model reads and writes. */
  datatype LearningPath = LearningPath(
    name: string,
    description: string,
    topicSequence: seq<string>,
    currentStage: int,
    completionRate: real)

  /** `_generate_difficulty_curve`: from difficulty 1 up to 3 over the given
      number of stages, exponentially. */
  function GenerateDifficultyCurve(stages: int): (c: DifficultyCurve)
    ensures c.stages == stages
    ensures 1 == c.initialDifficulty < c.maxDifficulty == 3
    ensures c.curveType == "exponential"
  {
    DifficultyCurve(1, 3, stages, "exponential")
  }

  /** The attributes of the `LearningPath` class that a keyword argument of
      its constructor may name: its columns and its relationship. */
  const PathAttributes: set<string> := {
    "id", "name", "description", "topic_sequence", "current_stage", "completion_rate",
    "created_at", "updated_at", "daily_problems", "submissions"}

  /** The message of the `TypeError` the declarative constructor raises. */
  function InvalidKeyword(k: string): string {
    "'" + k + "' is an invalid keyword argument for LearningPath"
  }

  /** The index of the first keyword that is not an attribute, if any. */
  function FirstInvalidKeyword(keywords: seq<string>): (k: Option<nat>)
    ensures k.None? <==> forall i :: 0 <= i < |keywords| ==> keywords[i] in PathAttributes
    ensures k.Some? ==> k.value < |keywords| && keywords[k.value] !in PathAttributes
    ensures k.Some? ==> forall j :: 0 <= j < k.value ==> keywords[j] in PathAttributes
  {
    if keywords == [] then None
    else if keywords[0] !in PathAttributes then Some(0)
    else
      match FirstInvalidKeyword(keywords[1..])
      case None => None
      case Some(k) => Some(k + 1)
  }

  /** The declarative constructor of `LearningPath` called with the given
      keywords: a `TypeError` naming the first keyword that is not an
      attribute of the class; otherwise a new row holding the name,
      description and topics, with the column defaults stage 0 and
      completion 0. */
  function NewLearningPath(keywords: seq<string>, name: string, description: string, topics: seq<string>)
    : (r: Result<LearningPath>)
    ensures r.Success? <==> forall i :: 0 <= i < |keywords| ==> keywords[i] in PathAttributes
    ensures r.Success? ==>
              && r.value.name == name && r.value.description == description && r.value.topicSequence == topics
              && r.value.currentStage == 0 && r.value.completionRate == 0.0
    ensures r.Failure? ==>
              exists k :: 0 <= k < |keywords| && keywords[k] !in PathAttributes
                && r.error == TypeError(InvalidKeyword(keywords[k]))
                && forall j :: 0 <= j < k ==> keywords[j] in PathAttributes
  {
    match FirstInvalidKeyword(keywords)
    case Some(k) => Failure(TypeError(InvalidKeyword(keywords[k])))
    case None => Success(LearningPath(name, description, topics, 0, 0.0))
  }

  /** `create_learning_path` as written: it passes `user_id` and
      `difficulty_curve`, which are not attributes of `LearningPath`, so
      once the mappers configure every call raises `TypeError` for
      `user_id` before anything is stored. */
  function CreateLearningPath(userId: int, name: string, description: string, topics: seq<string>)
    : (r: Result<LearningPath>)
    ensures r == Failure(TypeError(InvalidKeyword("user_id")))
  {
    NewLearningPath(["user_id", "name", "description", "topic_sequence", "difficulty_curve"],
                    name, description, topics)
  }

  /** `create_learning_path` passing only attributes of `LearningPath`, as
      the path routes of the application do: a new path holding the given
      topics at stage 0 with completion 0. */
  function CreateLearningPathCorrected(name: string, description: string, topics: seq<string>)
    : (r: Result<LearningPath>)
    ensures r.Success?
    ensures r.value.name == name && r.value.description == description && r.value.topicSequence == topics
    ensures r.value.currentStage == 0 && r.value.completionRate == 0.0
  {
    NewLearningPath(["name", "description", "topic_sequence"], name, description, topics)
  }

  /** The path table after `update_progress` together with its result. */
  datatype PathUpdate = PathUpdate(paths: map<int, LearningPath>, result: Result<Option<LearningPath>>)

  /** `update_progress`: `None` for an unknown path; a `ZeroDivisionError`
      (nothing committed) for a path without topics; otherwise the stage is
      stored and the completion rate becomes stage / number of topics, and
      no other path or field changes. */
  function UpdateProgress(paths: map<int, LearningPath>, pathId: int, completedStage: int): (u: PathUpdate)
    ensures pathId !in paths ==> u == PathUpdate(paths, Success(None))
    ensures pathId in paths && paths[pathId].topicSequence == [] ==> u == PathUpdate(paths, Failure(ZeroDivisionError))
    ensures pathId in paths && paths[pathId].topicSequence != [] ==>
              && u.result.Success? && u.result.value.Some?
              && var p, q := paths[pathId], u.result.value.value;
              && q.currentStage == completedStage
              && q.completionRate * |p.topicSequence| as real == completedStage as real
              && q == p.(currentStage := q.currentStage, completionRate := q.completionRate)
              && u.paths.Keys == paths.Keys && u.paths[pathId] == q
              && (forall k :: k in paths && k != pathId ==> u.paths[k] == paths[k])
  {
    if pathId !in paths then PathUpdate(paths, Success(None))
    else
      var p := paths[pathId];
      if |p.topicSequence| == 0 then PathUpdate(paths, Failure(ZeroDivisionError))
      else
        DivFacts(completedStage as real, |p.topicSequence| as real);
        var q := p.(currentStage := completedStage,
                    completionRate := completedStage as real / |p.topicSequence| as real);
        PathUpdate(paths[pathId := q], Success(Some(q)))
  }

  /** The completion rate lies in [0, 1] for a stage between 0 and the
      number of topics, and is 1 exactly at the last stage. */
  lemma UpdateProgressRate(paths: map<int, LearningPath>, pathId: int, completedStage: int)
    requires pathId in paths && paths[pathId].topicSequence != []
    requires 0 <= completedStage <= |paths[pathId].topicSequence|
    ensures var q := UpdateProgress(paths, pathId, completedStage).result.value.value;
            && 0.0 <= q.completionRate <= 1.0
            && (q.completionRate == 1.0 <==> completedStage == |paths[pathId].topicSequence|)
  {
    RatioFacts(completedStage as real, |paths[pathId].topicSequence| as real);
  }

  /** Reporting the same stage twice leaves the table as the first report
      left it. */
  lemma UpdateProgressIdempotent(paths: map<int, LearningPath>, pathId: int, completedStage: int)
    ensures var u := UpdateProgress(paths, pathId, completedStage);
            UpdateProgress(u.paths, pathId, completedStage) == u
  {
  }

  /** Any stored path with topics, reported at its last stage, is complete. */
  lemma FinishCompletes(paths: map<int, LearningPath>, pathId: int)
    requires pathId in paths && paths[pathId].topicSequence != []
    ensures var u := UpdateProgress(paths, pathId, |paths[pathId].topicSequence|);
            && u.result.Success? && u.result.value.Some?
            && u.result.value.value.currentStage == |paths[pathId].topicSequence|
            && u.result.value.value.completionRate == 1.0
  {
    UpdateProgressRate(paths, pathId, |paths[pathId].topicSequence|);
  }

  /** A path created from its columns, stored and reported at its last
      stage, is complete. */
  lemma CreateThenFinish(paths: map<int, LearningPath>, pathId: int, name: string, description: string,
                         topics: seq<string>)
    requires topics != []
    ensures var p := CreateLearningPathCorrected(name, description, topics).value;
            var u := UpdateProgress(paths[pathId := p], pathId, |topics|);
            u.result.Success? && u.result.value.Some? && u.result.value.value.completionRate == 1.0
  {
    var p := CreateLearningPathCorrected(name, description, topics).value;
    FinishCompletes(paths[pathId := p], pathId);
  }

  // ---------------------------------------------------------------------
  // ActivityTrackingService

  /** The `problem_id` and `is_correct` entries of `activity_data`. */
  datatype ActivityData = ActivityData(problemId: Option<int>, isCorrect: Option<bool>)

  /** An activity row; `effectiveness` stays unset except for problem
      solving. */
  datatype Activity = Activity(
    activityType: string,
    timeSpent: real,
    fatigueLevel: real,
    effectiveness: Option<real>)

  /** The fatigue of an activity: the last day's minutes over 480, capped
      at 1. */
  function ActivityFatigue(recentTimes: seq<real>): (f: real)
    ensures f <= 1.0
    ensures Sum(recentTimes) < 480.0 ==> f * 480.0 == Sum(recentTimes)
    ensures f == 1.0 <==> Sum(recentTimes) >= 480.0
    ensures (forall i :: 0 <= i < |recentTimes| ==> recentTimes[i] >= 0.0) ==> f >= 0.0
  {
    SumNonNegative(recentTimes);
    Min(Sum(recentTimes) / 480.0, 1.0)
  }

  /** The time factor min(average / time, 1) scaled back by the time is
      min(average, time); it lies in [0, 1] for a non-negative average and
      is 1 exactly when the average reaches the time. */
  lemma TimeFactor(avgTime: real, timeSpent: real)
    ensures timeSpent > 0.0 ==>
              && Min(avgTime / timeSpent, 1.0) * timeSpent == Min(avgTime, timeSpent)
              && (avgTime >= 0.0 ==> 0.0 <= Min(avgTime / timeSpent, 1.0) <= 1.0)
              && (Min(avgTime / timeSpent, 1.0) == 1.0 <==> avgTime >= timeSpent)
  {
    if timeSpent > 0.0 {
      DivFacts(avgTime, timeSpent);
      RatioAtLeastOne(avgTime, timeSpent);
    }
  }

  /** `record_activity`: the fatigue from the earlier activities of the last
      day; for problem solving, an unknown problem raises `AttributeError`,
      a correct answer scores 0.7 + 0.3 * min(average time / time spent, 1)
      (raising `ZeroDivisionError` for zero time spent) and any other answer
      scores 0.3. */
  function RecordActivity(recentTimes: seq<real>, activityType: string, data: ActivityData,
                          timeSpent: real, problems: map<int, Problem>): (r: Result<Activity>)
    ensures activityType != "problem_solving" ==>
              r == Success(Activity(activityType, timeSpent, ActivityFatigue(recentTimes), None))
    ensures activityType == "problem_solving" && (data.problemId.None? || data.problemId.value !in problems) ==>
              r.Failure? && r.error.AttributeError?
    ensures r.Success? ==>
              && r.value.fatigueLevel == ActivityFatigue(recentTimes)
              && r.value.activityType == activityType && r.value.timeSpent == timeSpent
    ensures activityType == "problem_solving" && data.problemId.Some? && data.problemId.value in problems ==>
              && (data.isCorrect != Some(true) ==> r == Success(Activity(activityType, timeSpent, ActivityFatigue(recentTimes), Some(0.3))))
              && (data.isCorrect == Some(true) && timeSpent == 0.0 ==> r == Failure(ZeroDivisionError))
              && (data.isCorrect == Some(true) && timeSpent > 0.0 ==>
                    && r.Success? && r.value.effectiveness.Some?
                    && (r.value.effectiveness.value - 0.7) * timeSpent
                         == 0.3 * Min(problems[data.problemId.value].averageTime, timeSpent))
              && (data.isCorrect == Some(true) && timeSpent > 0.0 && problems[data.problemId.value].averageTime >= 0.0 ==>
                    && r.Success? && r.value.effectiveness.Some?
                    && 0.7 <= r.value.effectiveness.value <= 1.0
                    && (r.value.effectiveness.value == 1.0 <==> problems[data.problemId.value].averageTime >= timeSpent))
  {
    var fatigue := ActivityFatigue(recentTimes);
    if activityType != "problem_solving" then Success(Activity(activityType, timeSpent, fatigue, None))
    else if data.problemId.None? || data.problemId.value !in problems then
      Failure(AttributeError("'NoneType' object has no attribute 'average_time'"))
    else
      var avgTime := problems[data.problemId.value].averageTime;
      if data.isCorrect == Some(true) then
        if timeSpent == 0.0 then Failure(ZeroDivisionError)
        else
          var factor := Min(avgTime / timeSpent, 1.0);
          TimeFactor(avgTime, timeSpent);
          Success(Activity(activityType, timeSpent, fatigue, Some(0.7 + 0.3 * factor)))
      else Success(Activity(activityType, timeSpent, fatigue, Some(0.3)))
  }

  datatype DailyStatistics = DailyStatistics(
    totalTime: real,
    averageEffectiveness: real,
    activityCount: nat,
    fatigueLevel: real)

  /** The largest element of a non-empty sequence. */
  function MaxOf(s: seq<real>): (m: real)
    requires s != []
    ensures forall i :: 0 <= i < |s| ==> s[i] <= m
    ensures exists i :: 0 <= i < |s| && s[i] == m
  {
    if |s| == 1 then s[0]
    else
      var rest := MaxOf(s[1..]);
      assert forall i :: 1 <= i < |s| ==> s[i] == s[1..][i - 1];
      Max(s[0], rest)
  }

  function Effectiveness(acts: seq<Activity>): (e: seq<real>)
    requires forall i :: 0 <= i < |acts| ==> acts[i].effectiveness.Some?
    ensures |e| == |acts| && forall i :: 0 <= i < |acts| ==> e[i] == acts[i].effectiveness.value
  {
    seq(|acts|, i requires 0 <= i < |acts| => acts[i].effectiveness.value)
  }

  function Fatigues(acts: seq<Activity>): (f: seq<real>)
    ensures |f| == |acts| && forall i :: 0 <= i < |acts| ==> f[i] == acts[i].fatigueLevel
  {
    seq(|acts|, i requires 0 <= i < |acts| => acts[i].fatigueLevel)
  }

  function ActivityTimes(acts: seq<Activity>): (t: seq<real>)
    ensures |t| == |acts| && forall i :: 0 <= i < |acts| ==> t[i] == acts[i].timeSpent
  {
    seq(|acts|, i requires 0 <= i < |acts| => acts[i].timeSpent)
  }

  /** `get_daily_statistics`: all zero for a day without activities;
      otherwise the total time, the mean effectiveness (a `TypeError` when an
      activity has none), the count and the highest fatigue. */
  function GetDailyStatistics(acts: seq<Activity>): (r: Result<DailyStatistics>)
    ensures acts == [] ==> r == Success(DailyStatistics(0.0, 0.0, 0, 0.0))
    ensures r.Failure? <==> exists i :: 0 <= i < |acts| && acts[i].effectiveness.None?
    ensures r.Success? && acts != [] ==>
              && r.value.totalTime == Sum(ActivityTimes(acts))
              && r.value.activityCount == |acts|
              && r.value.averageEffectiveness * |acts| as real == Sum(Effectiveness(acts))
              && (forall i :: 0 <= i < |acts| ==> acts[i].fatigueLevel <= r.value.fatigueLevel)
              && (exists i :: 0 <= i < |acts| && acts[i].fatigueLevel == r.value.fatigueLevel)
  {
    if acts == [] then Success(DailyStatistics(0.0, 0.0, 0, 0.0))
    else if exists i :: 0 <= i < |acts| && acts[i].effectiveness.None? then
      Failure(TypeError("unsupported operand type(s) for +: 'float' and 'NoneType'"))
    else
      var e := Effectiveness(acts);
      DivFacts(Sum(e), |acts| as real);
      var f := MaxOf(Fatigues(acts));
      Success(DailyStatistics(Sum(ActivityTimes(acts)), Sum(e) / |acts| as real, |acts|, f))
  }

  /** The day's effectiveness and fatigue stay within any bounds that every
      activity keeps, so a day of recorded activities has fatigue at most
      1. */
  lemma DailyStatisticsBounds(acts: seq<Activity>, lo: real, hi: real)
    requires acts != []
    requires forall i :: 0 <= i < |acts| ==>
               acts[i].effectiveness.Some? && lo <= acts[i].effectiveness.value <= hi
    ensures var r := GetDailyStatistics(acts);
            && r.Success?
            && lo <= r.value.averageEffectiveness <= hi
            && ((forall i :: 0 <= i < |acts| ==> acts[i].fatigueLevel <= 1.0) ==> r.value.fatigueLevel <= 1.0)
  {
    var e := Effectiveness(acts);
    MeanBounds(e, lo, hi);
  }
}
