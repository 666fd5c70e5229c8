# Adaptive learning core, modelled in Dafny

This project models the computational core of an adaptive learning
platform and proves properties of the model. The core has four parts:

- **The topic graph** (`KnowledgeGraph`). Topics are nodes with weights, and
  edges carry a kind such as "related" or "prerequisite". The graph looks up
  a topic's prerequisites and finds a learning path between two topics by
  breadth-first search.
- **The learning-ability analyses** (`AdaptiveLearningSystem`). From a
  topic's exercise attempts they compute comprehension speed, accuracy,
  consistency, difficulty handling, attempt-trend fatigue and retention.
  The same part covers the best-hours ranking, the current fatigue from a
  session log, the break length, `track_progress` with its adjustment rules,
  and the profile update.
- **The service formulas** (`services.py`):
  - user statistics;
  - difficulty handling across easy, medium and hard buckets;
  - difficulty choice and the problem filter of the recommender;
  - the difficulty curve and progress of learning paths;
  - activity fatigue and effectiveness;
  - daily statistics.
- **The scraper's pure steps** (`education_spider.py`). It classifies
  LeetCode difficulty labels and merges a scraped batch into the question
  database while skipping stored titles.

Python floats are modelled as exact `real`s. Python dicts with optional keys
become datatypes with `Option` fields, and a missing key becomes a
`Failure(KeyError(key))` result. Database queries become the sequences of
rows they return. The clock is a parameter `now`, and the forgetting curve
is a parameter `decay`.

Modules, one per part of the program:

| file | module | models |
|---|---|---|
| wrappers.dfy | Wrappers | `Option`, `Result` and the Python exceptions raised |
| reals.dfy | Reals | real-arithmetic facts used by the proofs |
| seqs.dfy | Seqs | subsequences, distinctness, sums and means |
| knowledge_graph.dfy | KnowledgeGraph | `add_node`, `add_edge`, `get_prerequisites` |
| path_search.dfy | PathSearch | `find_learning_path`, checked against walks |
| path_examples.dfy | PathExamples | concrete searches |
| analytics.dfy | Analytics | the per-topic ability formulas |
| best_hours.dfy | BestHours | `analyze_best_learning_time` |
| progress.dfy | Progress | sessions, `track_progress`, retention, ability analysis |
| services.dfy | Services | the service-layer formulas |
| spider.dfy | Spider | difficulty labels and title deduplication |

The search compares only dequeued successors with the end topic, so from a
topic to itself it returns a cycle through that topic or `None`, never the
one-topic list `[A]` (`PathExamples.LoneTopicExample`).

## Model

| member | source | states |
|---|---|---|
| KnowledgeGraph.Empty | adaptive_learning_system.py:6-9 | a new graph has no nodes and satisfies the representation invariant |
| KnowledgeGraph.AddNode | adaptive_learning_system.py:11-15 | a new node gets an empty destination list and the given weight and goes last in insertion order; adding an existing node leaves the graph identical; the invariant is kept |
| KnowledgeGraph.AddNodeIdempotent | adaptive_learning_system.py:11-15 | adding a node twice equals adding it once, whatever weight the second call passes |
| KnowledgeGraph.AddEdge | adaptive_learning_system.py:17-23 | an unknown source changes nothing; a known source gets `to` appended, duplicates kept; the kind of `from -> to` becomes `kind`; no other list or kind changes; `to` need not be a node |
| KnowledgeGraph.AddEdgeFromUnknownIsNoOp | adaptive_learning_system.py:17-19 | an edge from a topic never added leaves the graph unchanged and creates no list for it |
| KnowledgeGraph.PrerequisiteScan | adaptive_learning_system.py:28-31 | the scan keeps exactly the scanned sources with a prerequisite edge into the topic, in scan order |
| KnowledgeGraph.GetPrerequisites | adaptive_learning_system.py:25-32 | the result holds exactly the sources of prerequisite edges into the topic, each once, in node-insertion order |
| KnowledgeGraph.PrerequisiteExample | adaptive_learning_system.py:25-32 | with A -> B a prerequisite edge, B's prerequisites are [A] and A's are [] |
| KnowledgeGraph.BuiltPrerequisiteExample | adaptive_learning_system.py:11-32 | the same holds for the graph built by two `add_node` calls and one `add_edge` call |
| PathSearch.Bfs | adaptive_learning_system.py:39-50 | a returned path is a shortest walk of at least one edge from start to end; `None` means no such walk exists; a `KeyError` names a reachable topic that is not a node |
| PathSearch.FindLearningPath | adaptive_learning_system.py:34-50 | `None` when either endpoint is not a node; otherwise the guarantees of the search |
| PathSearch.FindLearningPathTotal | adaptive_learning_system.py:34-50 | the search with dangling destinations treated as topics without edges: a shortest path when one exists, `None` exactly when none does, and never an exception |
| PathSearch.NodeTargetsReachNodes | adaptive_learning_system.py:43-44 | when every destination is a node, every topic the search can reach has a list, so it never raises |
| PathSearch.CloseKeepsPaths | adaptive_learning_system.py:44 | giving dangling destinations empty lists adds and removes no learning path |
| PathSearch.NoEdgesNoPath | adaptive_learning_system.py:42-50 | a topic without destinations starts no learning path |
| PathExamples.ChainExample | adaptive_learning_system.py:34-50 | with A -> B -> C, the search from A to C returns [A, B, C] |
| PathExamples.DanglingExample | adaptive_learning_system.py:17-23 | with A -> X and X never added, the search from A to B raises `KeyError('X')`, while the total search returns `None` |
| PathExamples.LoneTopicExample | adaptive_learning_system.py:39-50 | for a single node A, the search from A to A returns `None`, not [A] |
| Analytics.CorrectCount | adaptive_learning_system.py:92 | the count of correct attempts is at most the number of attempts; it equals that number iff all are correct, and is 0 iff none is |
| Analytics.ComprehensionSpeed | adaptive_learning_system.py:89-95 | for a positive completion time, speed times time is the correct count, positive when some answer is correct; otherwise 0; never negative |
| Analytics.Accuracy | adaptive_learning_system.py:97-103 | accuracy times attempt count is the correct count; it lies in [0, 1]; it is 0 without attempts; it is 1 iff all attempts are correct and 0 iff none is |
| Analytics.Variance | adaptive_learning_system.py:110-111 | the population variance is non-negative |
| Analytics.VarianceZeroIff | adaptive_learning_system.py:110-111 | the variance is 0 exactly when all values are equal |
| Analytics.Consistency | adaptive_learning_system.py:105-112 | consistency is 0 without attempts and lies in (0, 1] otherwise |
| Analytics.ConsistencyOneIff | adaptive_learning_system.py:105-112 | consistency is 1 exactly when every attempt took the same time |
| Analytics.Clamp01 | adaptive_learning_system.py:140 | the clamp lies in [0, 1] and keeps values already in it |
| Analytics.FatigueLevel | adaptive_learning_system.py:118-140 | fatigue lies in [0, 1] and is 0 for fewer than two attempts |
| Analytics.DeltasTelescope | adaptive_learning_system.py:130-136 | consecutive differences sum to the last element minus the first |
| Analytics.FatigueClosedForm | adaptive_learning_system.py:118-140 | fatigue depends only on the attempt count and the first and last attempts |
| Analytics.FatigueIgnoresMiddle | adaptive_learning_system.py:130-139 | two attempt lists of equal length with the same first and last attempts have equal fatigue |
| Analytics.FatigueMonotoneInLastTime | adaptive_learning_system.py:118-140 | a longer last attempt never lowers fatigue |
| Analytics.FatigueExample | adaptive_learning_system.py:118-140 | times 5, 6, 8, 10 answered right, right, wrong, wrong give fatigue 1 |
| Analytics.AccuracyExample | adaptive_learning_system.py:89-103 | times 5, 8, 6 with the second wrong give accuracy 2/3 and, for completion time 45, speed 2/45 |
| Analytics.ConsistencyExample | adaptive_learning_system.py:105-112 | the same attempts give consistency 9/23 |
| BestHours.GroupSpec | adaptive_learning_system.py:162-167 | the hourly table lists every hour of the history once, in first-seen order, with all of its scores in history order |
| BestHours.SortDesc | adaptive_learning_system.py:176 | the sort returns a permutation of its input |
| BestHours.SortDescRanked | adaptive_learning_system.py:176 | sorting a first-seen-ordered list ranks by mean, highest first, and breaks ties by first appearance |
| BestHours.BestLearningHours | adaptive_learning_system.py:156-177 | an empty history gives []; at most three hours are returned |
| BestHours.BestLearningHoursSpec | adaptive_learning_system.py:156-177 | the result holds at most three distinct hours of the history, in rank order, and leaves an hour out only when three hours rank before it |
| BestHours.BestHoursExample | adaptive_learning_system.py:156-177 | hours 9, 14 and 20 scoring 0.9, 0.7 and 0.8 rank as [9, 20, 14] |
| Progress.LastFive | adaptive_learning_system.py:213 | the slice is the last five sessions, or all of them when there are fewer |
| Progress.SessionFatigue | adaptive_learning_system.py:208-218 | an empty log gives 0; otherwise, below the cap of 1, 100 times the result is 0.7 times the total duration plus 0.06 times the total intensity of the last five sessions, and the result is 1 exactly when that sum reaches 100; with non-negative durations and intensities it is at least 0 |
| Progress.SessionFatigueLastFive | adaptive_learning_system.py:213-214 | sessions before the last five do not matter |
| Progress.SessionFatigueDividesByFive | adaptive_learning_system.py:214 | the total intensity is divided by 5 even for one session: duration 0 and intensity 100 give 0.06 |
| Progress.SessionFatigueNoLowerClamp | adaptive_learning_system.py:217-218 | there is no lower cap: duration -200 gives -1.4 |
| Progress.CurrentFatigue | adaptive_learning_system.py:203-218 | 0 for a user without sessions, without a `recent_activities` entry, or with a zero entry; the session-log formula for a log; `TypeError` exactly for a non-zero timestamp in that entry; at most 1 |
| Progress.TrackProgressKeepsNoActivityLog | adaptive_learning_system.py:230-232 | tracking topics not named `recent_activities` never creates that entry |
| Progress.CurrentFatigueWithoutLog | adaptive_learning_system.py:205-210 | on such a store the current fatigue is always 0 |
| Progress.CurrentFatigueAfterTopicNamedLog | adaptive_learning_system.py:208-213 | tracking a topic named `recent_activities` at a non-zero time makes the current-fatigue analysis raise |
| Progress.Trunc | adaptive_learning_system.py:223 | `int()` truncates toward zero: below a non-negative value by less than 1, above a negative one by less than 1 |
| Progress.BreakDuration | adaptive_learning_system.py:220-223 | the break is 15 * (1 + fatigue) truncated toward zero, and lies in [15, 30] for fatigue in [0, 1] |
| Progress.BreakDurationMonotone | adaptive_learning_system.py:220-223 | more fatigue never shortens the break |
| Progress.BreakDurationExamples | adaptive_learning_system.py:220-223 | fatigue 0.8 gives 27, 0.3 gives 19, and -1.5 gives -7 (truncated, not floored) |
| Progress.Put | adaptive_learning_system.py:230-237 | the nested store gets `[user][topic] = v`, creating the user's map when absent, and no other entry changes |
| Progress.RecordedUnique | adaptive_learning_system.py:230-237 | that description determines the new store |
| Progress.PutIdempotent | adaptive_learning_system.py:230-237 | writing the same entry twice equals writing it once |
| Progress.AdjustDifficulty | adaptive_learning_system.py:260-262 | +0.1 iff accuracy > 0.8, and -0.1 iff not |
| Progress.AdjustPace | adaptive_learning_system.py:264-266 | "increase" iff completion rate > 0.9, and "maintain" iff not |
| Progress.FocusAreas | adaptive_learning_system.py:268-270 | ["problem_solving"] iff accuracy < 0.7, and [] iff not |
| Progress.RevisionNeeds | adaptive_learning_system.py:272-274 | revision is needed iff accuracy < 0.6, and then problem solving is a focus area |
| Progress.Adjust | adaptive_learning_system.py:246-256 | a missing `accuracy` raises first, then a missing `completion_rate`; otherwise all the threshold rules hold, the break is recommended iff fatigue > 0.7, and the suggested break is the break length |
| Progress.SetFatigue | adaptive_learning_system.py:240-243 | only the user's `fatigue_pattern[topic]` changes |
| Progress.SetFatigueIdempotent | adaptive_learning_system.py:240-243 | writing the same fatigue twice equals writing it once |
| Progress.TrackProgress | adaptive_learning_system.py:225-258 | an unprofiled user raises before any write; otherwise the timestamp and record are stored first; a missing `exercise_attempts`, `accuracy` or `completion_rate` raises exactly when missing, in that order; the profile gets the attempt-trend fatigue; on success the adjustment rules hold and the break lies in [15, 30] |
| Progress.TrackProgressIdempotent | adaptive_learning_system.py:225-258 | tracking the same record twice at the same time leaves the state and result of the first call |
| Progress.TrackProgressHarnessExample | adaptive_learning_system.py:446-460 | the harness record lacks `exercise_attempts`, so the call raises `KeyError` after storing the timestamp, and the profiles are unchanged |
| Progress.RetentionRate | adaptive_learning_system.py:142-154 | 1 for a user without sessions; a missing `topic_id` raises; otherwise the curve at the hours since the topic's timestamp, with 0 hours when the topic has none |
| Progress.RetentionAfterTrack | adaptive_learning_system.py:142-154 | right after tracking a topic, its retention is the curve at 0 hours |
| Progress.DifficultyHandling | adaptive_learning_system.py:114-116 | the record's `correct_rate`, or 0 when absent |
| Progress.UpdateProfile | adaptive_learning_system.py:276-290 | without a profile nothing changes; otherwise `learning_speed['current']` becomes the speed, the accuracy is appended to the history, and nothing else changes |
| Progress.Metrics | adaptive_learning_system.py:76-83 | the six metrics are the six formulas on the record, with their ranges |
| Progress.AnalyzeLearningAbility | adaptive_learning_system.py:72-87 | a missing `exercise_attempts` raises first; a missing `topic_id` raises only for a user with sessions; a failure changes nothing; a success returns the metrics, with retention 1 for a user without sessions, and updates only the profile |
| Progress.AnalyzeHarnessExample | adaptive_learning_system.py:410-427 | the harness topic record gives speed 2/45, accuracy 2/3, consistency 9/23, difficulty 0.85, fatigue 0.3 and retention 1, and appends 2/3 to the accuracy history |
| Progress.AbilityFatigueExample | adaptive_learning_system.py:118-140 | times 5, 8, 6 (right, wrong, right) give fatigue 0.3 |
| Services.GetUserStatistics | services.py:47-69 | count and total time of the recent submissions; effectiveness is their accuracy, in [0, 1], 1 iff all correct; fatigue is the statistics fatigue of that total and effectiveness, at most 1, at least 0 for non-negative times, and 0 when all are correct; no submissions give all zeros |
| Services.StatisticsFatigue | services.py:62 | below the cap, fatigue times 3600 is the seconds times the wrong fraction; at or above it, fatigue is 1; non-negative for non-negative inputs; 0 at full effectiveness |
| Services.UserStatisticsExample | services.py:55-69 | two half-hour submissions, one correct, give 3600 seconds, 2, 0.5 and 0.5 |
| Services.Bucket | services.py:144-146 | a bucket holds 0s and 1s and is empty iff no submission has its difficulty |
| Services.BucketAllWrong | services.py:144-146 | a bucket holds only zeros iff no submission of its difficulty is correct |
| Services.BucketCounts | services.py:144-146 | a bucket has one entry per submission of its difficulty, and its entries add up to the number of those answered correctly |
| Services.BucketMeanIsAccuracy | services.py:150-151 | the mean of a non-empty bucket is the number of correct answers of its difficulty over the number of answers |
| Services.BucketScore | services.py:149-152 | a bucket scores nothing iff no submission has its difficulty; otherwise it scores (correct answers / answers of that difficulty) times its weight, within [0, weight], and 0 iff none of them is correct |
| Services.Scores | services.py:148-152 | the scores of the easy (weight 1), medium (2) and hard (3) buckets, in that order, each present only for a non-empty bucket; each lies in [0, 3]; there are none iff no submission has a known level; all are 0 iff no submission of a known level is correct |
| Services.FirstUnknown | services.py:144-146 | the index of the first submission whose difficulty is not a known level, if any |
| Services.DifficultyHandling | services.py:127-154 | 0 without submissions; `KeyError` exactly when some difficulty is unknown, naming the first one; otherwise the sum of the bucket scores over their number (there is at least one), in [0, 3], and 0 iff no answer is correct |
| Services.DifficultyMean | services.py:148-154 | with only known levels there is at least one bucket score, and their mean lies in [0, 3] and is 0 iff no answer is correct |
| Services.DifficultyHandlingExample | services.py:127-154 | an easy problem solved and a hard one failed score 0.5, and the empty medium bucket is not averaged in |
| Services.DifficultyHandlingUnknownExample | services.py:144-146 | an unknown difficulty after a known one raises `KeyError` with its name |
| Services.ChooseDifficulty | services.py:166-171 | easy iff skill < 0.3, medium iff 0.3 <= skill < 0.7, hard iff skill >= 0.7 |
| Services.ChooseDifficultyMonotone | services.py:166-171 | a higher skill never gets an easier level |
| Services.CompletedIds | services.py:159-163 | exactly the ids of correctly solved problems |
| Services.Pick | services.py:174-177 | the first `count` eligible problems in table order: an ordered subsequence of eligible problems, as many as `count` allows, and all of them when fewer; every eligible problem preceded by fewer than `count` eligible ones is picked |
| Services.RecommendProblems | services.py:156-179 | at most `count` problems in table order, all of the chosen level, none solved correctly before; fewer only when no other problem qualifies |
| Services.GenerateDifficultyCurve | services.py:197-204 | the curve rises from 1 to 3 exponentially over the given stages |
| Services.FirstInvalidKeyword | models.py:80-94 | the index of the first keyword that names no column or relationship of `LearningPath`, if any |
| Services.NewLearningPath | models.py:80-94 | the constructor raises `TypeError` naming the first keyword that is not an attribute of the class, exactly when there is one; otherwise the row holds the given name, description and topics at stage 0 with completion 0 |
| Services.CreateLearningPath | services.py:183-194 | with the mappers configured, every call raises `TypeError` for `user_id`, which is not an attribute of `LearningPath`, before anything is stored |
| Services.CreateLearningPathCorrected | services.py:183-194 | passing only attributes of the class, the call succeeds with a path holding the given name, description and topics at stage 0 with completion 0 |
| Services.UpdateProgress | services.py:207-216 | `None` for an unknown path; `ZeroDivisionError` for a path without topics; otherwise the stage is stored, the rate times the topic count is the stage, and no other path or field changes |
| Services.UpdateProgressRate | services.py:212 | for a stage between 0 and the topic count the rate lies in [0, 1], and is 1 exactly at the last stage |
| Services.UpdateProgressIdempotent | services.py:207-216 | reporting the same stage twice leaves the table as the first report did |
| Services.FinishCompletes | services.py:207-216 | any stored path with topics, reported at its last stage, stores that stage and becomes complete |
| Services.CreateThenFinish | services.py:207-216 | a path created from its columns, stored and reported at its last stage, is complete |
| Services.ActivityFatigue | services.py:234-235 | below 480 recent minutes, fatigue times 480 is the minutes; fatigue is 1 iff the minutes reach 480; at most 1, and non-negative for non-negative times |
| Services.TimeFactor | services.py:244 | for a positive time, the time factor times the time is min(average, time); it lies in [0, 1] for a non-negative average and is 1 iff the average reaches the time |
| Services.RecordActivity | services.py:220-251 | the fatigue comes from recent time; for problem solving, an unknown problem raises `AttributeError`, a wrong answer scores 0.3, and a correct one with zero time raises `ZeroDivisionError`; with a positive time, (score - 0.7) times the time is 0.3 * min(average, time), so the score lies in [0.7, 1] for a non-negative average and reaches 1 iff the average is at least the time spent |
| Services.MaxOf | services.py:265 | the maximum bounds every element and is one of them |
| Services.GetDailyStatistics | services.py:254-266 | all zero without activities; `TypeError` iff some activity has no effectiveness; otherwise total time, count, the mean effectiveness (mean times count is the sum), and the highest fatigue |
| Services.DailyStatisticsBounds | services.py:261-266 | the mean effectiveness stays within any bounds every activity keeps, and the fatigue stays at most 1 when every activity's does |
| Spider.LowerChar | education_spider.py:193 | ASCII upper-case letters map to lower case and other characters are kept |
| Spider.Lower | education_spider.py:193 | lowering keeps the length, maps each character and leaves no ASCII upper-case letter |
| Spider.LowerIdempotent | education_spider.py:193 | lowering twice is lowering once |
| Spider.ContainsAt | education_spider.py:194-196 | substring containment holds iff the substring occurs at some offset |
| Spider.MissingChar | education_spider.py:194-196 | a string that lacks one of the characters of `sub` does not contain `sub` |
| Spider.ConvertLeetcodeDifficulty | education_spider.py:191-199 | the result is easy, medium or hard; easy iff an easy marker occurs after lowering; medium iff a medium marker occurs but no easy marker; hard iff neither |
| Spider.ConvertIgnoresCase | education_spider.py:191-199 | the classification ignores letter case |
| Spider.ConvertIdempotent | education_spider.py:191-199 | classifying a classified label gives it back |
| Spider.EasyLabel | education_spider.py:193-195 | the label "easy" is easy |
| Spider.MediumLabel | education_spider.py:193-197 | the label "medium" has no easy marker and is medium |
| Spider.HardLabel | education_spider.py:193-199 | the label "hard" has neither marker and is hard |
| Spider.ConvertUpperCaseExample | education_spider.py:193-195 | "EASY" is easy |
| Spider.ConvertMediumExample | education_spider.py:196-197 | "Medium" is medium |
| Spider.ConvertBothMarkersExample | education_spider.py:194-195 | an easy marker wins over a medium one |
| Spider.ConvertEmptyExample | education_spider.py:198-199 | the empty label is hard |
| Spider.Fresh | education_spider.py:237-238 | the kept questions are an ordered subsequence of the batch: those whose title is not stored, all of them, with duplicates inside the batch kept |
| Spider.UpdateQuestionDatabase | education_spider.py:234-247 | the database keeps its old entries as a prefix, followed by the fresh questions of the LeetCode batch and then the NowCoder batch; the count added is the batch size minus the questions whose title is already stored, so duplicates inside a batch are each added; afterwards every scraped title is stored |
| Spider.UpdateTwiceAddsNothing | education_spider.py:234-247 | merging the same batches again adds nothing |
| Spider.MergeExample | education_spider.py:234-247 | a stored title blocks a new question, while two new questions with the same fresh title are both kept |

## Left out

- I/O and glue: database queries and commits, the Flask routes, the ORM models apart from the keyword check of the `LearningPath` constructor, database seeding, the HTTP-level tests, Playwright scraping, asyncio, JSON save and load, the thread launch in run.py, password hashing and printing. Query results are sequences of rows.
- The clock: `time.time()` and `datetime.utcnow()` become the parameter `now`. A performance record's timestamp is reduced to its hour.
- Retention: the exponential decay is the uninterpreted parameter `decay`, so no transcendental arithmetic is verified. Only the branch structure and the hours-since argument are modelled.
- `recommend_next_steps`, `generate_personalized_plan` and the placeholder methods that return constants or `pass`: they carry no behaviour beyond those constants.
- `get_user_features` and `_calculate_consistency` of the recommender: numpy and sklearn numerics.
- The `UserProfile` fields that the modelled operations never read or write, and profile creation.
- Python floats are exact reals: rounding and overflow are not modelled.
- `str.lower()` is modelled on ASCII letters only. Other characters, the Chinese markers included, are kept as they are.
- Attempt, session and performance records are assumed well formed inside: each attempt has `time_spent` and `correct`, and each session has `duration` and `intensity`. The keys whose absence the modelled code reaches as an error (`exercise_attempts`, `topic_id`, `accuracy`, `completion_rate`) are optional.
- Progress.CurrentFatigue: only two shapes of the `recent_activities` entry are modelled, a timestamp and a session log. A non-zero timestamp raises because a float cannot be sliced.
- Services.UpdateProgress: a `ZeroDivisionError` returns the table unchanged, because the failed update is never committed. The in-memory ORM object the session would still hold is not modelled.
- Services.RecordActivity: the score formula is stated for a positive time spent, and its [0.7, 1] range also needs a non-negative average time. A negative time spent, which no activity records, is left without a stated score. A `None` time spent is not modelled. `is_correct` is taken to be a boolean or absent (`Option<bool>`); the source tests its truthiness, so a JSON `1` or `"true"` would also score as correct.
- Services.GetDailyStatistics: activity times are numbers. `UserActivity.time_spent` is nullable (models.py:107) and `record_activity` stores the given `time_spent`, which may be `None` for an activity that is not problem solving (the new row is not yet part of the sum at services.py:234); `sum` at services.py:262 would then raise `TypeError`, which is not modelled.
- Services.Pick: the query has no `ORDER BY`, so the database fixes neither which eligible rows `limit` keeps nor their order; the model takes them in table order.
- Services.NewLearningPath: the attributes a keyword may name are the columns and the relationship of `LearningPath`. Other class attributes, such as the inherited `query`, are not in the set. The keyword values are not checked against the keywords: the row always takes the given name, description and topics.
- Services.NewLearningPath: the model assumes the ORM mappers configure. As models.py stands they do not: `User.submissions` (models.py:29) clashes with the `submissions` backref of `Submission.user` (models.py:77), `Problem.submissions` (models.py:63) clashes with that of `Submission.problem` (models.py:78), and `User.learning_paths` and `LearningPath.submissions` have no foreign key to join on. Constructing any model first raises that configuration error, so the keyword `TypeError` is what the constructor raises once the mappers are fixed.
- Services.GetUserStatistics: submission times are numbers. The `time_spent` column is nullable (models.py:74) and the submit route stores `data.get('time_spent')` (app.py:96), so a submission sent without a time holds `None`, and `sum` at services.py:56 then raises `TypeError`; that failure is not modelled.
- Services.RecommendProblems: `count` is a natural number. A negative SQL `LIMIT` is not modelled.
- KnowledgeGraph.AddNode, KnowledgeGraph.AddEdge and KnowledgeGraph.GetPrerequisites require the representation invariant `KnowledgeGraph.Valid`. `KnowledgeGraph.Empty` establishes it and every graph operation keeps it. Graphs whose dictionaries were changed outside these methods are not modelled.

## Findings

| source | as written | input that shows it | evidently intended | confidence | as-written member | corrected member |
|---|---|---|---|---|---|---|
| services.py:185-191 | `create_learning_path` passes `user_id` and `difficulty_curve` to `LearningPath`, which has neither column (models.py:80-94), so the constructor raises `TypeError` once the mappers configure; as models.py stands, mapper configuration fails first | any call, e.g. `create_learning_path(1, "p", "", ["arrays"])` | a new path holding the topics at stage 0 with completion 0 is created, as the path routes create one | not executed | Services.CreateLearningPath | Services.CreateLearningPathCorrected |
| adaptive_learning_system.py:43-44 | the search indexes `graph` with every dequeued topic, but `add_edge` accepts a destination that was never added as a node | nodes A and B, edge A -> X with X never added; `find_learning_path(A, B)` dequeues X and raises `KeyError('X')` | a destination without a list has no outgoing edges, so the search returns `None` | not executed | PathExamples.DanglingExample | PathSearch.FindLearningPathTotal |
