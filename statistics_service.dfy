/** `extractStatisticsFromLogs` and `formatWeightHistory` of `statisticsService.ts`: the
    reduction of a user's training sessions into weekly buckets, current-week and current-month
    totals, best lifts, a progress series, muscle-group counts and frequency rankings.

    The sessions (with their performances and routine), the exercise catalog and the current
    moment are parameters; the service loads the first from the database, fetches the second
    over HTTP and reads the third from the clock. */
module StatisticsService {
  import opened Wrappers
  import opened JsStrings
  import opened Seqs
  import opened StableSort
  import opened JsObjects
  import opened WeekNumbering
  import opened ExerciseService

  /** A database row id: a positive PostgreSQL `integer`, so below 2^31. */
  type RowId = n: nat | n < 0x8000_0000

  /** A stored `ExercisePerformance`: one exercise of a session, with one rep count and one
      weight per set. */
  datatype Performance = Performance(exerciseId: string, name: string, reps: seq<real>, weights: seq<real>, isBodyweight: bool)

  /** The loaded `routine` relation of a session. */
  datatype RoutineRef = RoutineRef(id: RowId, title: string)

  /** A stored `TrainingLog` with its relations. `caloriesBurned` is not a column of the
      entity, so a session loaded from the table has none; the field models the code that
      reads it. */
  datatype TrainingLog = TrainingLog(
    startedAt: Instant,
    duration: int,
    totalWeight: real,
    caloriesBurned: Option<real>,
    routine: Option<RoutineRef>,
    performances: seq<Performance>)

  /** `{ ...p, date: log.startedAt }`. */
  datatype DatedPerformance = DatedPerformance(perf: Performance, date: Instant)

  // ---------------------------------------------------------------------------------------
  // Flattening

  function Dated(log: TrainingLog): (r: seq<DatedPerformance>)
    ensures |r| == |log.performances|
    ensures forall i :: 0 <= i < |r| ==> r[i] == DatedPerformance(log.performances[i], log.startedAt)
  {
    seq(|log.performances|, i requires 0 <= i < |log.performances| => DatedPerformance(log.performances[i], log.startedAt))
  }

  function PerformanceCount(log: TrainingLog): int
  {
    |log.performances|
  }

  /** `logs.flatMap(log => log.performances.map(p => ({ ...p, date: log.startedAt })))`. */
  function Flatten(logs: seq<TrainingLog>): (r: seq<DatedPerformance>)
    ensures |r| == Sum(logs, PerformanceCount)
  {
    if logs == [] then [] else Flatten(logs[..|logs| - 1]) + Dated(logs[|logs| - 1])
  }

  /** Flattening distributes over concatenation: sessions keep their order and each session's
      performances stay together in their own order. */
  lemma {:induction false} FlattenConcat(a: seq<TrainingLog>, b: seq<TrainingLog>)
    ensures Flatten(a + b) == Flatten(a) + Flatten(b)
  {
    if b == [] {
      assert a + b == a;
    } else {
      var b', x := b[..|b| - 1], b[|b| - 1];
      assert (a + b)[..|a + b| - 1] == a + b';
      assert (a + b)[|a + b| - 1] == x;
      FlattenConcat(a, b');
      var fa, fb, d := Flatten(a), Flatten(b'), Dated(x);
      assert (fa + fb) + d == fa + (fb + d);
    }
  }

  // ---------------------------------------------------------------------------------------
  // The loop over sessions: week buckets, days trained, current-week and current-month totals

  /** The week bucket of a session: the week its `WeekKey` names. */
  function SessionWeek(log: TrainingLog): WeekId
  {
    WeekIdOf(log.startedAt)
  }

  /** `log.startedAt.toISOString().split('T')[0]`. */
  function SessionDate(log: TrainingLog): string
  {
    DatePart(log.startedAt.iso)
  }

  function TotalWeightOf(log: TrainingLog): real
  {
    log.totalWeight
  }

  /** The week of every session, in session order. */
  function WeekIds(logs: seq<TrainingLog>): seq<WeekId>
  {
    MapSeq(logs, SessionWeek)
  }

  /** `totalWeightPerWeek`: a running sum of `totalWeight` per week key. */
  function TotalWeightPerWeek(logs: seq<TrainingLog>): map<WeekId, real>
  {
    GroupSums(logs, SessionWeek, TotalWeightOf)
  }

  /** `daysTrained`: the UTC date of every session, in session order. */
  function DaysTrained(logs: seq<TrainingLog>): seq<string>
  {
    MapSeq(logs, SessionDate)
  }

  datatype Window = CurrentWeek | CurrentMonth

  /** A session is in the current week when it has the year and week number of `now`, and in
      the current month when it has the year and month of `now`. */
  predicate InWindow(w: Window, now: Instant, log: TrainingLog)
  {
    log.startedAt.year == now.year
    && match w
       case CurrentWeek => WeekNumber(log.startedAt) == WeekNumber(now)
       case CurrentMonth => log.startedAt.month == now.month
  }

  function InWindowOf(w: Window, now: Instant): TrainingLog -> bool
  {
    (l: TrainingLog) => InWindow(w, now, l)
  }

  function DurationOf(log: TrainingLog): int
  {
    log.duration
  }

  /** An absent calorie count counts as 0. */
  function CaloriesOf(log: TrainingLog): real
  {
    log.caloriesBurned.GetOr(0.0)
  }

  /** `totalTimeWeek` or `totalTimeMonth`: the durations of the sessions in the window, added
      up in session order. */
  function WindowTime(logs: seq<TrainingLog>, w: Window, now: Instant): int
  {
    if logs == [] then 0
    else
      var x := logs[|logs| - 1];
      WindowTime(logs[..|logs| - 1], w, now) + (if InWindow(w, now, x) then x.duration else 0)
  }

  /** `totalCaloriesWeek` or `totalCaloriesMonth`: the calorie counts of the sessions in the
      window, added up in session order. */
  function WindowCalories(logs: seq<TrainingLog>, w: Window, now: Instant): real
  {
    if logs == [] then 0.0
    else
      var x := logs[|logs| - 1];
      WindowCalories(logs[..|logs| - 1], w, now) + (if InWindow(w, now, x) then CaloriesOf(x) else 0.0)
  }

  /** One more session adds its duration to the window's time exactly when it is in the window. */
  lemma {:induction false} WindowTimeSnoc(p: seq<TrainingLog>, x: TrainingLog, w: Window, now: Instant)
    ensures WindowTime(p + [x], w, now) == WindowTime(p, w, now) + (if InWindow(w, now, x) then x.duration else 0)
  {
    assert (p + [x])[..|p|] == p;
  }

  /** One more session adds its calories to the window's total exactly when it is in the window. */
  lemma {:induction false} WindowCaloriesSnoc(p: seq<TrainingLog>, x: TrainingLog, w: Window, now: Instant)
    ensures WindowCalories(p + [x], w, now) == WindowCalories(p, w, now) + (if InWindow(w, now, x) then CaloriesOf(x) else 0.0)
  {
    assert (p + [x])[..|p|] == p;
  }

  /** A window's time is the sum of the durations of exactly the sessions in the window. */
  lemma {:induction false} WindowTimeMeaning(logs: seq<TrainingLog>, w: Window, now: Instant)
    ensures WindowTime(logs, w, now) == Sum(Filter(logs, InWindowOf(w, now)), DurationOf)
  {
    if logs != [] {
      var p, x := logs[..|logs| - 1], logs[|logs| - 1];
      assert logs == p + [x];
      WindowTimeMeaning(p, w, now);
      WindowTimeSnoc(p, x, w, now);
      SumFilterSnoc(p, x, InWindowOf(w, now), DurationOf);
    }
  }

  /** A window's calories are the sum of the calories of exactly the sessions in the window,
      an absent count taken as 0. */
  lemma {:induction false} WindowCaloriesMeaning(logs: seq<TrainingLog>, w: Window, now: Instant)
    ensures WindowCalories(logs, w, now) == SumReal(Filter(logs, InWindowOf(w, now)), CaloriesOf)
  {
    if logs != [] {
      var p, x := logs[..|logs| - 1], logs[|logs| - 1];
      assert logs == p + [x];
      WindowCaloriesMeaning(p, w, now);
      WindowCaloriesSnoc(p, x, w, now);
      SumRealFilterSnoc(p, x, InWindowOf(w, now), CaloriesOf);
    }
  }

  /** One more session adds one to the count of its week; a stored count is never 0, so
      `(x[week] || 0)` reads it back unchanged. */
  lemma {:induction false} SessionCountStep(logs: seq<TrainingLog>, i: nat)
    requires i < |logs|
    ensures var c, k := Counts(WeekIds(logs[..i])), SessionWeek(logs[i]);
      Counts(WeekIds(logs[..i + 1])) == c[k := (if k in c && c[k] != 0 then c[k] else 0) + 1]
  {
    var p, x := logs[..i], logs[i];
    assert logs[..i + 1] == p + [x];
    MapSeqSnoc(p, x, SessionWeek);
    CountsStep(WeekIds(p), SessionWeek(x));
  }

  /** One more session adds its total weight to the sum of its week; a stored 0 and a missing
      entry both read back as 0. */
  lemma {:induction false} WeekWeightStep(logs: seq<TrainingLog>, i: nat)
    requires i < |logs|
    ensures var m, k := TotalWeightPerWeek(logs[..i]), SessionWeek(logs[i]);
      TotalWeightPerWeek(logs[..i + 1]) == m[k := (if k in m && m[k] != 0.0 then m[k] else 0.0) + logs[i].totalWeight]
  {
    var p, x := logs[..i], logs[i];
    assert logs[..i + 1] == p + [x];
    assert (p + [x])[..|p + [x]| - 1] == p;
  }

  lemma {:induction false} DaysTrainedStep(logs: seq<TrainingLog>, i: nat)
    requires i < |logs|
    ensures DaysTrained(logs[..i + 1]) == DaysTrained(logs[..i]) + [DatePart(logs[i].startedAt.iso)]
  {
    assert logs[..i + 1] == logs[..i] + [logs[i]];
    MapSeqSnoc(logs[..i], logs[i], SessionDate);
  }

  lemma {:induction false} WindowStep(logs: seq<TrainingLog>, i: nat, w: Window, now: Instant)
    requires i < |logs|
    ensures var x := logs[i];
      WindowTime(logs[..i + 1], w, now) == WindowTime(logs[..i], w, now) + (if InWindow(w, now, x) then x.duration else 0)
    ensures var x := logs[i];
      WindowCalories(logs[..i + 1], w, now) == WindowCalories(logs[..i], w, now)
        + (if InWindow(w, now, x) && x.caloriesBurned.Some? && x.caloriesBurned.value != 0.0 then x.caloriesBurned.value else 0.0)
  {
    var q := logs[..i + 1];
    assert q[..|q| - 1] == logs[..i];
    assert CaloriesOf(logs[i]) == if logs[i].caloriesBurned.Some? && logs[i].caloriesBurned.value != 0.0 then logs[i].caloriesBurned.value else 0.0;
  }

  /** The loop over `logs` (the first loop of `extractStatisticsFromLogs`). */
  method TallySessions(logs: seq<TrainingLog>, now: Instant)
    returns (sessionsPerWeek: map<WeekId, nat>, totalWeightPerWeek: map<WeekId, real>, daysTrained: seq<string>,
             totalTimeWeek: int, totalTimeMonth: int, totalCaloriesWeek: real, totalCaloriesMonth: real)
    ensures sessionsPerWeek == Counts(WeekIds(logs))
    ensures totalWeightPerWeek == TotalWeightPerWeek(logs)
    ensures daysTrained == DaysTrained(logs)
    ensures totalTimeWeek == WindowTime(logs, CurrentWeek, now)
    ensures totalTimeMonth == WindowTime(logs, CurrentMonth, now)
    ensures totalCaloriesWeek == WindowCalories(logs, CurrentWeek, now)
    ensures totalCaloriesMonth == WindowCalories(logs, CurrentMonth, now)
  {
    sessionsPerWeek, totalWeightPerWeek, daysTrained := map[], map[], [];
    totalTimeWeek, totalTimeMonth, totalCaloriesWeek, totalCaloriesMonth := 0, 0, 0.0, 0.0;
    var thisWeek := WeekNumber(now);
    var i := 0;
    while i < |logs|
      invariant i <= |logs|
      invariant sessionsPerWeek == Counts(WeekIds(logs[..i]))
      invariant totalWeightPerWeek == TotalWeightPerWeek(logs[..i])
      invariant daysTrained == DaysTrained(logs[..i])
      invariant totalTimeWeek == WindowTime(logs[..i], CurrentWeek, now)
      invariant totalTimeMonth == WindowTime(logs[..i], CurrentMonth, now)
      invariant totalCaloriesWeek == WindowCalories(logs[..i], CurrentWeek, now)
      invariant totalCaloriesMonth == WindowCalories(logs[..i], CurrentMonth, now)
    {
      var log := logs[i];
      SessionCountStep(logs, i);
      WeekWeightStep(logs, i);
      DaysTrainedStep(logs, i);
      WindowStep(logs, i, CurrentWeek, now);
      WindowStep(logs, i, CurrentMonth, now);

      var dateStr := DatePart(log.startedAt.iso);
      daysTrained := daysTrained + [dateStr];

      var week := WeekIdOf(log.startedAt);
      sessionsPerWeek := sessionsPerWeek[week := (if week in sessionsPerWeek && sessionsPerWeek[week] != 0 then sessionsPerWeek[week] else 0) + 1];
      totalWeightPerWeek := totalWeightPerWeek[week := (if week in totalWeightPerWeek && totalWeightPerWeek[week] != 0.0 then totalWeightPerWeek[week] else 0.0) + log.totalWeight];

      var logWeek, logMonth, logYear := WeekNumber(log.startedAt), log.startedAt.month, log.startedAt.year;
      if logYear == now.year && logWeek == thisWeek {
        totalTimeWeek := totalTimeWeek + log.duration;
        if log.caloriesBurned.Some? && log.caloriesBurned.value != 0.0 {
          totalCaloriesWeek := totalCaloriesWeek + log.caloriesBurned.value;
        }
      }
      if logYear == now.year && logMonth == now.month {
        totalTimeMonth := totalTimeMonth + log.duration;
        if log.caloriesBurned.Some? && log.caloriesBurned.value != 0.0 {
          totalCaloriesMonth := totalCaloriesMonth + log.caloriesBurned.value;
        }
      }
      i := i + 1;
    }
    assert logs[..i] == logs;
  }

  /** A week bucket exists exactly for the weeks in which some session started; it counts the
      sessions of that week and sums their total weights. */
  lemma {:induction false} WeekBucketsMeaning(logs: seq<TrainingLog>, k: WeekId)
    ensures k in Counts(WeekIds(logs)) <==> exists i :: 0 <= i < |logs| && WeekIdOf(logs[i].startedAt) == k
    ensures k in TotalWeightPerWeek(logs) <==> k in Counts(WeekIds(logs))
    ensures k in Counts(WeekIds(logs)) ==> Counts(WeekIds(logs))[k] == |Filter(logs, HasKey(SessionWeek, k))|
    ensures k in TotalWeightPerWeek(logs) ==>
      TotalWeightPerWeek(logs)[k] == SumReal(Filter(logs, HasKey(SessionWeek, k)), TotalWeightOf)
  {
    var ks := WeekIds(logs);
    GroupSumsMeaning(logs, SessionWeek, TotalWeightOf, k);
    CountsMeaning(ks, k);
    MapSeqIndex(logs, SessionWeek);
    OccMapSeq(logs, SessionWeek, k);
    if k in ks {
      var i :| 0 <= i < |ks| && ks[i] == k;
      assert WeekIdOf(logs[i].startedAt) == k;
    }
    if exists i :: 0 <= i < |logs| && WeekIdOf(logs[i].startedAt) == k {
      var i :| 0 <= i < |logs| && WeekIdOf(logs[i].startedAt) == k;
      assert ks[i] == k;
    }
  }

  /** The week buckets partition the sessions: their counts add up to the number of sessions. */
  lemma {:induction false} SessionsPerWeekTotal(logs: seq<TrainingLog>)
    ensures Sum(Distinct(WeekIds(logs)), OccOf(WeekIds(logs))) == |logs|
  {
    SumOccDistinct(WeekIds(logs));
  }

  /** A window total counts the sessions in the window and nothing else: the same total comes
      out of the selected sessions alone. */
  lemma {:induction false} WindowTimeOfSelection(logs: seq<TrainingLog>, w: Window, now: Instant)
    ensures WindowTime(Filter(logs, InWindowOf(w, now)), w, now) == WindowTime(logs, w, now)
    ensures WindowCalories(Filter(logs, InWindowOf(w, now)), w, now) == WindowCalories(logs, w, now)
  {
    var p := InWindowOf(w, now);
    WindowTimeMeaning(logs, w, now);
    WindowTimeMeaning(Filter(logs, p), w, now);
    WindowCaloriesMeaning(logs, w, now);
    WindowCaloriesMeaning(Filter(logs, p), w, now);
    FilterMembers(logs, p);
    FilterAll(Filter(logs, p), p);
  }

  /** A session without calories, or with 0 calories, leaves both calorie totals unchanged. */
  lemma {:induction false} NoCaloriesAddNothing(logs: seq<TrainingLog>, x: TrainingLog, w: Window, now: Instant)
    requires x.caloriesBurned.None? || x.caloriesBurned == Some(0.0)
    ensures WindowCalories(logs + [x], w, now) == WindowCalories(logs, w, now)
  {
    assert (logs + [x])[..|logs + [x]| - 1] == logs;
  }

  // ---------------------------------------------------------------------------------------
  // Best lift per exercise

  function RealMax(a: real, b: real): real
  {
    if a >= b then a else b
  }

  /** `Math.max(...ws)` on a non-empty list. */
  function SeqMax(ws: seq<real>): (m: real)
    requires |ws| > 0
    ensures m in ws && forall w :: w in ws ==> w <= m
  {
    if |ws| == 1 then ws[0]
    else
      assert ws == ws[..|ws| - 1] + [ws[|ws| - 1]];
      RealMax(SeqMax(ws[..|ws| - 1]), ws[|ws| - 1])
  }

  /** `p.weights.length > 0 ? Math.max(...p.weights.map(Number)) : 0`. */
  function PerfMax(ws: seq<real>): real
  {
    if |ws| > 0 then SeqMax(ws) else 0.0
  }

  /** The largest of 0 and the elements of `ws`. */
  function MaxOrZero(ws: seq<real>): (m: real)
    ensures 0.0 <= m
    ensures forall w :: w in ws ==> w <= m
    ensures m == 0.0 || m in ws
  {
    if ws == [] then 0.0
    else
      assert ws == ws[..|ws| - 1] + [ws[|ws| - 1]];
      RealMax(MaxOrZero(ws[..|ws| - 1]), ws[|ws| - 1])
  }

  lemma {:induction false} MaxOrZeroConcat(a: seq<real>, b: seq<real>)
    ensures MaxOrZero(a + b) == RealMax(MaxOrZero(a), PerfMax(b))
  {
    var l, r := MaxOrZero(a + b), RealMax(MaxOrZero(a), PerfMax(b));
    assert forall w :: w in a + b <==> w in a || w in b;
    assert r == 0.0 || r in a + b;
    assert l <= r;
    assert r <= l;
  }

  function ExerciseIds(ds: seq<DatedPerformance>): (r: seq<string>)
    ensures |r| == |ds|
    ensures forall i :: 0 <= i < |ds| ==> r[i] == ds[i].perf.exerciseId
  {
    if ds == [] then [] else ExerciseIds(ds[..|ds| - 1]) + [ds[|ds| - 1].perf.exerciseId]
  }

  /** Every weight of every set of the performances of exercise `id`, bodyweight sets included. */
  function WeightsOf(ds: seq<DatedPerformance>, id: string): seq<real>
  {
    if ds == [] then []
    else
      var d := ds[|ds| - 1];
      WeightsOf(ds[..|ds| - 1], id) + (if d.perf.exerciseId == id then d.perf.weights else [])
  }

  /** The weights collected for `id` are exactly the weights of the sets of its performances. */
  lemma {:induction false} WeightsOfMembers(ds: seq<DatedPerformance>, id: string)
    ensures forall d, w :: d in ds && d.perf.exerciseId == id && w in d.perf.weights ==> w in WeightsOf(ds, id)
    ensures forall w :: w in WeightsOf(ds, id) ==> exists d :: d in ds && d.perf.exerciseId == id && w in d.perf.weights
  {
    if ds != [] {
      var ds', d := ds[..|ds| - 1], ds[|ds| - 1];
      assert ds == ds' + [d];
      WeightsOfMembers(ds', id);
      forall w | w in WeightsOf(ds, id) ensures exists e :: e in ds && e.perf.exerciseId == id && w in e.perf.weights {
        if w in WeightsOf(ds', id) {
          var e :| e in ds' && e.perf.exerciseId == id && w in e.perf.weights;
          assert e in ds;
        } else {
          assert d in ds;
        }
      }
    }
  }

  /** `bestLiftPerExercise`: for every exercise id that occurs, the largest of 0 and all its
      weights. */
  function BestLifts(ds: seq<DatedPerformance>): (m: map<string, real>)
    ensures forall id :: id in m <==> id in ExerciseIds(ds)
  {
    map id | id in ExerciseIds(ds) :: MaxOrZero(WeightsOf(ds, id))
  }

  lemma {:induction false} WeightsOfAbsent(ds: seq<DatedPerformance>, id: string)
    requires id !in ExerciseIds(ds)
    ensures WeightsOf(ds, id) == []
  {
    if ds != [] {
      assert (ds[..|ds| - 1] + [ds[|ds| - 1]])[..|ds| - 1] == ds[..|ds| - 1];
      WeightsOfAbsent(ds[..|ds| - 1], id);
    }
  }

  lemma {:induction false} ExerciseIdsSnoc(ds: seq<DatedPerformance>, d: DatedPerformance)
    ensures ExerciseIds(ds + [d]) == ExerciseIds(ds) + [d.perf.exerciseId]
  {
  }

  lemma {:induction false} WeightsOfSnoc(ds: seq<DatedPerformance>, d: DatedPerformance, id: string)
    ensures WeightsOf(ds + [d], id) == WeightsOf(ds, id) + (if d.perf.exerciseId == id then d.perf.weights else [])
  {
    assert (ds + [d])[..|ds|] == ds;
  }

  /** One entry of `BestLifts(ds + [d])`: the new performance only touches its own exercise. */
  lemma {:induction false} BestLiftSnocAt(ds: seq<DatedPerformance>, d: DatedPerformance, j: string)
    requires j in ExerciseIds(ds) || j == d.perf.exerciseId
    ensures var m, id := BestLifts(ds), d.perf.exerciseId;
      && j in BestLifts(ds + [d])
      && BestLifts(ds + [d])[j]
         == if j == id then RealMax(if id in m && m[id] != 0.0 then m[id] else 0.0, PerfMax(d.perf.weights)) else m[j]
  {
    var m, id := BestLifts(ds), d.perf.exerciseId;
    ExerciseIdsSnoc(ds, d);
    assert j in ExerciseIds(ds + [d]);
    WeightsOfSnoc(ds, d, j);
    if j != id {
      assert WeightsOf(ds + [d], j) == WeightsOf(ds, j) + [];
      assert WeightsOf(ds + [d], j) == WeightsOf(ds, j);
    } else {
      MaxOrZeroConcat(WeightsOf(ds, id), d.perf.weights);
      if id !in m {
        WeightsOfAbsent(ds, id);
      }
    }
  }

  lemma {:induction false} BestLiftsSnoc(ds: seq<DatedPerformance>, d: DatedPerformance)
    ensures var m, id := BestLifts(ds), d.perf.exerciseId;
      BestLifts(ds + [d]) == m[id := RealMax(if id in m && m[id] != 0.0 then m[id] else 0.0, PerfMax(d.perf.weights))]
  {
    var ids := ExerciseIds(ds);
    var m, id := BestLifts(ds), d.perf.exerciseId;
    var m' := BestLifts(ds + [d]);
    var want := m[id := RealMax(if id in m && m[id] != 0.0 then m[id] else 0.0, PerfMax(d.perf.weights))];
    ExerciseIdsSnoc(ds, d);
    forall j ensures j in m' <==> j in want {
      assert j in ids + [id] <==> j in ids || j == id;
    }
    forall j | j in m' ensures m'[j] == want[j] {
      BestLiftSnocAt(ds, d, j);
    }
    assert m' == want;
  }

  /** The performance loop that fills `bestLiftPerExercise`. */
  method BestLiftPerExercise(ds: seq<DatedPerformance>) returns (best: map<string, real>)
    ensures best == BestLifts(ds)
  {
    best := map[];
    var i := 0;
    while i < |ds|
      invariant i <= |ds|
      invariant best == BestLifts(ds[..i])
    {
      var p := ds[i];
      assert ds[..i + 1] == ds[..i] + [p];
      BestLiftsSnoc(ds[..i], p);
      var max := if |p.perf.weights| > 0 then SeqMax(p.perf.weights) else 0.0;
      var id := p.perf.exerciseId;
      best := best[id := RealMax(if id in best && best[id] != 0.0 then best[id] else 0.0, max)];
      i := i + 1;
    }
    assert ds[..i] == ds;
  }

  /** The best lift of an exercise is at least 0, at least every weight recorded for it, and is
      0 or one of those weights. */
  lemma {:induction false} BestLiftIsMaximum(ds: seq<DatedPerformance>, id: string)
    requires id in ExerciseIds(ds)
    ensures 0.0 <= BestLifts(ds)[id]
    ensures forall d, w :: d in ds && d.perf.exerciseId == id && w in d.perf.weights ==> w <= BestLifts(ds)[id]
    ensures BestLifts(ds)[id] == 0.0 ||
      exists d, w :: d in ds && d.perf.exerciseId == id && w in d.perf.weights && w == BestLifts(ds)[id]
  {
    WeightsOfMembers(ds, id);
    var ws := WeightsOf(ds, id);
    var best := BestLifts(ds)[id];
    assert best == MaxOrZero(ws);
    forall d, w | d in ds && d.perf.exerciseId == id && w in d.perf.weights
      ensures w <= best
    {
      assert w in ws;
    }
    if best != 0.0 {
      assert best in ws;
      var d :| d in ds && d.perf.exerciseId == id && best in d.perf.weights;
    }
  }

  // ---------------------------------------------------------------------------------------
  // Progress series

  datatype ProgressPoint = ProgressPoint(date: string, maxWeight: real)

  function ToProgressPoint(d: DatedPerformance): ProgressPoint
  {
    ProgressPoint(DatePart(d.date.iso), PerfMax(d.perf.weights))
  }

  /** The digits of `s`, in order. */
  function DigitsOf(s: string): (r: string)
    ensures AllDigits(r)
  {
    if s == [] then []
    else DigitsOf(s[..|s| - 1]) + (if IsDigit(s[|s| - 1]) then [s[|s| - 1]] else [])
  }

  /** The sort key of a progress point. The comparator subtracts `new Date(date).getTime()`;
      for the `YYYY-MM-DD` text of `toISOString`, with a four-digit year and the month and day
      zero-padded, the number `YYYYMMDD` orders dates the same way, so a stable sort gives the
      same result with either key. Years outside 0 to 9999, which `toISOString` writes as a
      signed six-digit year, are not covered by this key. */
  function DayKey(p: ProgressPoint): real
  {
    DecimalValue(DigitsOf(p.date)) as real
  }

  function HasExerciseId(id: string): DatedPerformance -> bool
  {
    (d: DatedPerformance) => d.perf.exerciseId == id
  }

  function ProgressPoints(ds: seq<DatedPerformance>): (r: seq<ProgressPoint>)
    ensures |r| == |ds|
    ensures forall i :: 0 <= i < |ds| ==> r[i] == ToProgressPoint(ds[i])
  {
    seq(|ds|, i requires 0 <= i < |ds| => ToProgressPoint(ds[i]))
  }

  /** `exerciseProgress`: empty without a (non-empty) filter; otherwise one point per
      performance of that exercise, sorted by date, equal dates in flattening order. */
  function ExerciseProgress(ds: seq<DatedPerformance>, exerciseIdFilter: Option<string>): (r: seq<ProgressPoint>)
    ensures exerciseIdFilter.None? || exerciseIdFilter.value == [] ==> r == []
    ensures exerciseIdFilter.Some? && exerciseIdFilter.value != [] ==>
      var selected := ProgressPoints(Filter(ds, HasExerciseId(exerciseIdFilter.value)));
      |r| == |selected| && multiset(r) == multiset(selected) && SortedBy(r, DayKey)
  {
    if exerciseIdFilter.None? || exerciseIdFilter.value == [] then []
    else SortBy(ProgressPoints(Filter(ds, HasExerciseId(exerciseIdFilter.value))), DayKey)
  }

  /** Points with the same date keep the order of their performances. */
  lemma {:induction false} ExerciseProgressIsStable(ds: seq<DatedPerformance>, id: string, k: real)
    requires id != []
    ensures Block(ExerciseProgress(ds, Some(id)), DayKey, k) == Block(ProgressPoints(Filter(ds, HasExerciseId(id))), DayKey, k)
  {
    SortByStable(ProgressPoints(Filter(ds, HasExerciseId(id))), DayKey, k);
  }

  /** Every point of the series comes from a performance of the filtered exercise. */
  lemma {:induction false} ExerciseProgressSource(ds: seq<DatedPerformance>, id: string, p: ProgressPoint)
    requires id != [] && p in ExerciseProgress(ds, Some(id))
    ensures exists d :: d in ds && d.perf.exerciseId == id && p == ToProgressPoint(d)
  {
    var sel := Filter(ds, HasExerciseId(id));
    FilterMembers(ds, HasExerciseId(id));
    assert p in multiset(ProgressPoints(sel));
    var i :| 0 <= i < |sel| && ProgressPoints(sel)[i] == p;
    assert sel[i] in sel;
  }

  // ---------------------------------------------------------------------------------------
  // Muscle groups

  /** The target of the first catalog entry with the performance's id, when it is truthy. */
  function MatchedTarget(catalog: seq<Exercise>, d: DatedPerformance): Option<string>
  {
    var m := FindById(catalog, d.perf.exerciseId);
    if m.Some? && HasTarget(m.value) then Some(m.value.target.value) else None
  }

  /** The raw targets of the performances that have a catalog match with a truthy target. */
  function TargetsOf(ds: seq<DatedPerformance>, catalog: seq<Exercise>): (r: seq<string>)
    ensures |r| <= |ds|
  {
    if ds == [] then []
    else
      var t := MatchedTarget(catalog, ds[|ds| - 1]);
      TargetsOf(ds[..|ds| - 1], catalog) + (if t.Some? then [t.value] else [])
  }

  lemma {:induction false} TargetsOfStep(ds: seq<DatedPerformance>, catalog: seq<Exercise>, i: nat)
    requires i < |ds|
    ensures var m := FindById(catalog, ds[i].perf.exerciseId);
      TargetsOf(ds[..i + 1], catalog) == TargetsOf(ds[..i], catalog)
        + (if m.Some? && m.value.target.Some? && m.value.target.value != [] then [m.value.target.value] else [])
  {
    var q := ds[..i + 1];
    assert q[..|q| - 1] == ds[..i] && q[|q| - 1] == ds[i];
  }

  /** The performance loop that fills `exerciseCountByTarget`. */
  method MuscleGroupCounts(ds: seq<DatedPerformance>, catalog: seq<Exercise>) returns (groups: map<string, nat>)
    ensures groups == Counts(TargetsOf(ds, catalog))
  {
    groups := map[];
    var i := 0;
    while i < |ds|
      invariant i <= |ds|
      invariant groups == Counts(TargetsOf(ds[..i], catalog))
    {
      var p := ds[i];
      TargetsOfStep(ds, catalog, i);
      var match_ := FindById(catalog, p.perf.exerciseId);
      if match_.Some? && match_.value.target.Some? && match_.value.target.value != [] {
        var target := match_.value.target.value;
        CountsStep(TargetsOf(ds[..i], catalog), target);
        groups := groups[target := (if target in groups && groups[target] != 0 then groups[target] else 0) + 1];
      } else {
        assert TargetsOf(ds[..i], catalog) + [] == TargetsOf(ds[..i], catalog);
      }
      i := i + 1;
    }
    assert ds[..i] == ds;
  }

  /** The muscle-group counts add up to the number of matched performances, which is at most
      the number of performances. */
  lemma {:induction false} MuscleGroupsTotal(ds: seq<DatedPerformance>, catalog: seq<Exercise>)
    ensures Sum(Distinct(TargetsOf(ds, catalog)), OccOf(TargetsOf(ds, catalog))) <= |ds|
  {
    SumOccDistinct(TargetsOf(ds, catalog));
  }

  /** A performance counts towards a muscle group only through a catalog match with a truthy
      target, and it counts towards the target of the first match. */
  lemma {:induction false} MuscleGroupSource(ds: seq<DatedPerformance>, catalog: seq<Exercise>, t: string)
    requires t in TargetsOf(ds, catalog)
    ensures exists d :: d in ds && MatchedTarget(catalog, d) == Some(t)
  {
    var d := ds[|ds| - 1];
    var rest := TargetsOf(ds[..|ds| - 1], catalog);
    if t in rest {
      MuscleGroupSource(ds[..|ds| - 1], catalog, t);
      var e :| e in ds[..|ds| - 1] && MatchedTarget(catalog, e) == Some(t);
      assert e in ds;
    } else {
      assert d in ds && MatchedTarget(catalog, d) == Some(t);
    }
  }

  // ---------------------------------------------------------------------------------------
  // Frequency rankings

  /** One counted occurrence: the dictionary key and the label stored when the key is new. */
  datatype Tagged = Tagged(key: string, name: string)

  /** `{ title, count }` of a routine or `{ name, count }` of an exercise. */
  datatype Usage = Usage(name: string, count: nat)

  function TagKey(x: Tagged): string
  {
    x.key
  }

  /** The key of every item, in order. */
  function TagKeys(items: seq<Tagged>): seq<string>
  {
    MapSeq(items, TagKey)
  }

  /** The label of the first item with key `k`. */
  function FirstName(items: seq<Tagged>, k: string): string
    requires k in TagKeys(items)
  {
    MapSeqIndex(items, TagKey);
    items[FirstIndex(TagKeys(items), k)].name
  }

  /** The dictionary the counting loops build:
      `if (!m[key]) m[key] = { label, count: 0 }; m[key].count++` for every item in turn. An
      entry is an object, so for a key that is not the name of a property inherited from
      `Object.prototype` (the only keys this model covers), `!m[key]` holds exactly when the
      key is new. */
  function Usages(items: seq<Tagged>): Record<Usage>
  {
    if items == [] then Record([], map[])
    else
      var rec, x := Usages(items[..|items| - 1]), items[|items| - 1];
      var started := if x.key in rec.values then rec else Put(rec, x.key, Usage(x.name, 0));
      Put(started, x.key, Usage(started.values[x.key].name, started.values[x.key].count + 1))
  }

  /** The dictionary stays a well-formed object: distinct keys, in step with its properties. */
  lemma {:induction false} UsagesValid(items: seq<Tagged>)
    ensures Usages(items).Valid()
  {
    if items != [] {
      var rec, x := Usages(items[..|items| - 1]), items[|items| - 1];
      UsagesValid(items[..|items| - 1]);
      PutValid(rec, x.key, Usage(x.name, 0));
      var started := if x.key in rec.values then rec else Put(rec, x.key, Usage(x.name, 0));
      PutValid(started, x.key, Usage(started.values[x.key].name, started.values[x.key].count + 1));
    }
  }

  /** One more item: its key gets an entry if it had none and the entry's count goes up by one;
      every other entry stays. */
  lemma {:induction false} UsagesStep(p: seq<Tagged>, x: Tagged)
    ensures var rec, rec' := Usages(p), Usages(p + [x]);
      && rec'.keys == (if x.key in rec.values then rec.keys else rec.keys + [x.key])
      && rec'.values.Keys == rec.values.Keys + {x.key}
      && (forall k :: k in rec.values && k != x.key ==> rec'.values[k] == rec.values[k])
      && rec'.values[x.key] == if x.key in rec.values then Usage(rec.values[x.key].name, rec.values[x.key].count + 1) else Usage(x.name, 1)
  {
    assert (p + [x])[..|p + [x]| - 1] == p;
    assert (p + [x])[|p + [x]| - 1] == x;
  }

  /** The keys are listed in order of first occurrence. */
  lemma {:induction false} UsagesKeys(items: seq<Tagged>)
    ensures Usages(items).keys == Distinct(TagKeys(items))
  {
    if items != [] {
      var p, x := items[..|items| - 1], items[|items| - 1];
      assert items == p + [x];
      UsagesKeys(p);
      UsagesMeaning(p, x.key);
      UsagesStep(p, x);
      MapSeqSnoc(p, x, TagKey);
      DistinctAppend(TagKeys(p), x.key);
    }
  }

  lemma {:induction false} FirstNameSnoc(p: seq<Tagged>, x: Tagged, k: string)
    ensures TagKeys(p + [x]) == TagKeys(p) + [x.key]
    ensures k in TagKeys(p) ==> FirstName(p + [x], k) == FirstName(p, k)
    ensures k !in TagKeys(p) && k == x.key ==> FirstName(p + [x], k) == x.name
  {
    var items := p + [x];
    var ks, ks' := TagKeys(p), TagKeys(items);
    MapSeqSnoc(p, x, TagKey);
    MapSeqIndex(items, TagKey);
    if k in ks {
      FirstIndexOfPrefix(ks', k, |ks|);
      assert ks'[..|ks|] == ks;
      var j := FirstIndex(ks, k);
      assert items[j] == p[j];
    } else if k == x.key {
      assert FirstIndex(ks', k) == |ks|;
    }
  }

  /** There is an entry for exactly the keys that occur, holding the label of the key's first
      item and its number of occurrences. */
  lemma {:induction false} UsagesMeaning(items: seq<Tagged>, k: string)
    ensures k in Usages(items).values <==> k in TagKeys(items)
    ensures k in Usages(items).values ==>
      k in TagKeys(items) && Usages(items).values[k] == Usage(FirstName(items, k), Occ(TagKeys(items), k))
  {
    if items != [] {
      var p, x := items[..|items| - 1], items[|items| - 1];
      assert items == p + [x];
      UsagesMeaning(p, k);
      UsagesStep(p, x);
      FirstNameSnoc(p, x, k);
      OccAppend(TagKeys(p), x.key, k);
    }
  }

  lemma {:induction false} TallyStep(items: seq<Tagged>, i: nat)
    requires i < |items|
    ensures var rec, x := Usages(items[..i]), items[i];
      var started := if x.key !in rec.values then Put(rec, x.key, Usage(x.name, 0)) else rec;
      Usages(items[..i + 1]) == Put(started, x.key, Usage(started.values[x.key].name, started.values[x.key].count + 1))
  {
    var q := items[..i + 1];
    assert q[..|q| - 1] == items[..i] && q[|q| - 1] == items[i];
  }

  /** The loop shared by `routineUsage` and `exerciseFrequency`. */
  method Tally(items: seq<Tagged>) returns (rec: Record<Usage>)
    ensures rec == Usages(items) && rec.Valid()
  {
    rec := Record([], map[]);
    var i := 0;
    while i < |items|
      invariant i <= |items|
      invariant rec == Usages(items[..i])
    {
      var x := items[i];
      TallyStep(items, i);
      if x.key !in rec.values {
        rec := Put(rec, x.key, Usage(x.name, 0));
      }
      rec := Put(rec, x.key, Usage(rec.values[x.key].name, rec.values[x.key].count + 1));
      i := i + 1;
    }
    assert items[..i] == items;
    UsagesValid(items);
  }

  function NegCount(u: Usage): real
  {
    -(u.count as real)
  }

  function CountOf(u: Usage): int
  {
    u.count
  }

  /** `Object.values(m).sort((a, b) => b.count - a.count)`. */
  function Ranking(rec: Record<Usage>): (r: seq<Usage>)
    requires rec.Valid()
    ensures |r| == |rec.keys|
    ensures multiset(r) == multiset(Values(rec))
    ensures forall i, j :: 0 <= i < j < |r| ==> r[i].count >= r[j].count
  {
    var r := SortBy(Values(rec), NegCount);
    assert forall i, j :: 0 <= i < j < |r| ==> NegCount(r[i]) <= NegCount(r[j]);
    r
  }

  /** The ranking of the dictionary the counting loop builds from `items`. */
  function RankingOf(items: seq<Tagged>): seq<Usage>
  {
    UsagesValid(items);
    Ranking(Usages(items))
  }

  lemma {:induction false} SumCountsAlong(ks: seq<string>, vs: seq<Usage>, xs: seq<string>)
    requires |ks| == |vs|
    requires forall i :: 0 <= i < |ks| ==> vs[i].count == Occ(xs, ks[i])
    ensures Sum(vs, CountOf) == Sum(ks, OccOf(xs))
  {
    if ks != [] {
      SumCountsAlong(ks[..|ks| - 1], vs[..|vs| - 1], xs);
    }
  }

  /** The counts of a ranking add up to the number of counted items. */
  lemma {:induction false} RankingTotal(items: seq<Tagged>)
    ensures Sum(RankingOf(items), CountOf) == |items|
  {
    var rec := Usages(items);
    UsagesValid(items);
    var ks, vs := Keys(rec), Values(rec);
    var xs := TagKeys(items);
    forall i | 0 <= i < |ks| ensures vs[i].count == Occ(xs, ks[i]) {
      UsagesMeaning(items, ks[i]);
    }
    SumPermutation(Ranking(rec), vs, CountOf);
    SumCountsAlong(ks, vs, xs);
    SumPermutation(ks, rec.keys, OccOf(xs));
    UsagesKeys(items);
    SumOccDistinct(xs);
  }

  /** Every ranked entry is the label of the first occurrence and the number of occurrences of
      one key. */
  lemma {:induction false} RankingEntries(items: seq<Tagged>, u: Usage)
    requires u in RankingOf(items)
    ensures exists k :: k in TagKeys(items) && u == Usage(FirstName(items, k), Occ(TagKeys(items), k))
  {
    var rec := Usages(items);
    UsagesValid(items);
    assert u in multiset(Values(rec));
    var i :| 0 <= i < |Values(rec)| && Values(rec)[i] == u;
    var k := Keys(rec)[i];
    UsagesMeaning(items, k);
  }

  /** Entries with equal counts keep the order in which `Object.values` lists them. */
  lemma {:induction false} RankingTies(rec: Record<Usage>, c: real)
    requires rec.Valid()
    ensures Block(Ranking(rec), NegCount, c) == Block(Values(rec), NegCount, c)
  {
    SortByStable(Values(rec), NegCount, c);
  }

  /** `log.routine?.title || 'Sin título'`. */
  function RoutineTitle(r: RoutineRef): string
  {
    if r.title != [] then r.title else "Sin título"
  }

  /** `if (id)`: the session has a routine with a truthy id. */
  predicate HasRoutine(l: TrainingLog)
  {
    l.routine.Some? && l.routine.value.id != 0
  }

  /** A property name that is the numeral of a positive row id. */
  predicate IsRoutineKey(k: string)
  {
    exists n: RowId :: n != 0 && k == NatToString(n)
  }

  /** The items counted in `routineUsage`: one per session with a routine, keyed by the
      routine id as a property name and labelled with its title. */
  function RoutineItems(logs: seq<TrainingLog>): (r: seq<Tagged>)
    ensures |r| == |Filter(logs, HasRoutine)|
    ensures forall x :: x in r ==> IsRoutineKey(x.key)
  {
    if logs == [] then []
    else
      var p, l := logs[..|logs| - 1], logs[|logs| - 1];
      var rest := RoutineItems(p);
      assert logs == p + [l];
      FilterSnoc(p, l, HasRoutine);
      if HasRoutine(l) then
        assert IsRoutineKey(NatToString(l.routine.value.id));
        rest + [Tagged(NatToString(l.routine.value.id), RoutineTitle(l.routine.value))]
      else
        rest
  }

  /** Routine ids are array indices, so `Object.values(routineUsage)` lists the routines in
      ascending id order; ties in `mostUsedRoutines` therefore come in ascending id order. */
  lemma {:induction false} RoutineOrderIsById(logs: seq<TrainingLog>)
    ensures Usages(RoutineItems(logs)).Valid()
    ensures var rec := Usages(RoutineItems(logs));
      Keys(rec) == SortBy(rec.keys, IndexValue) && SortedBy(Keys(rec), IndexValue)
  {
    var items := RoutineItems(logs);
    var rec := Usages(items);
    UsagesValid(items);
    UsagesKeys(items);
    MapSeqIndex(items, TagKey);
    forall k | k in rec.keys ensures IsArrayIndex(k) {
      var i :| 0 <= i < |TagKeys(items)| && TagKeys(items)[i] == k;
      assert items[i] in items;
      var n: RowId :| n != 0 && k == NatToString(n);
      NumeralIsArrayIndex(n);
    }
    OwnKeysOfIndices(rec.keys);
  }

  function PerformanceItem(d: DatedPerformance): Tagged
  {
    Tagged(d.perf.exerciseId, d.perf.name)
  }

  /** The items counted in `exerciseFrequency`: every performance, keyed by its exercise id and
      labelled with its name. */
  function ExerciseItems(ds: seq<DatedPerformance>): seq<Tagged>
  {
    MapSeq(ds, PerformanceItem)
  }

  // ---------------------------------------------------------------------------------------
  // The whole reduction

  datatype Statistics = Statistics(
    sessionsPerWeek: map<WeekId, nat>,
    totalWeightPerWeek: map<WeekId, real>,
    bestLiftPerExercise: map<string, real>,
    exerciseProgress: seq<ProgressPoint>,
    muscleGroups: map<string, nat>,
    daysTrained: seq<string>,
    totalTimeWeek: int,
    totalTimeMonth: int,
    totalCaloriesWeek: real,
    totalCaloriesMonth: real,
    mostUsedRoutines: seq<Usage>,
    mostFrequentExercises: seq<Usage>)

  /** `extractStatisticsFromLogs(userId, logs, exerciseIdFilter)` with the clock reading `now`
      and the catalog `catalog`. */
  method ExtractStatistics(logs: seq<TrainingLog>, exerciseIdFilter: Option<string>, now: Instant, catalog: seq<Exercise>)
    returns (st: Statistics)
    ensures st.sessionsPerWeek == Counts(WeekIds(logs))
    ensures st.totalWeightPerWeek == TotalWeightPerWeek(logs)
    ensures st.bestLiftPerExercise == BestLifts(Flatten(logs))
    ensures st.exerciseProgress == ExerciseProgress(Flatten(logs), exerciseIdFilter)
    ensures st.muscleGroups == Counts(TargetsOf(Flatten(logs), catalog))
    ensures st.daysTrained == DaysTrained(logs)
    ensures st.totalTimeWeek == WindowTime(logs, CurrentWeek, now)
    ensures st.totalTimeMonth == WindowTime(logs, CurrentMonth, now)
    ensures st.totalCaloriesWeek == WindowCalories(logs, CurrentWeek, now)
    ensures st.totalCaloriesMonth == WindowCalories(logs, CurrentMonth, now)
    ensures st.mostUsedRoutines == RankingOf(RoutineItems(logs))
    ensures st.mostFrequentExercises == RankingOf(ExerciseItems(Flatten(logs)))
  {
    var performances := Flatten(logs);
    var sessionsPerWeek, totalWeightPerWeek, daysTrained, totalTimeWeek, totalTimeMonth, totalCaloriesWeek, totalCaloriesMonth
      := TallySessions(logs, now);
    var bestLiftPerExercise := BestLiftPerExercise(performances);
    var exerciseProgress := ExerciseProgress(performances, exerciseIdFilter);
    var muscleGroups := MuscleGroupCounts(performances, catalog);
    var routineUsage := Tally(RoutineItems(logs));
    var exerciseFrequency := Tally(ExerciseItems(performances));
    st := Statistics(sessionsPerWeek, totalWeightPerWeek, bestLiftPerExercise, exerciseProgress, muscleGroups,
      daysTrained, totalTimeWeek, totalTimeMonth, totalCaloriesWeek, totalCaloriesMonth,
      Ranking(routineUsage), Ranking(exerciseFrequency));
  }

  // ---------------------------------------------------------------------------------------
  // Weight history

  /** A stored `WeightLog`: a body weight and the moment it was recorded. */
  datatype WeightLog = WeightLog(date: Instant, value: real)

  datatype WeightPoint = WeightPoint(date: string, value: real)

  /** `formatWeightHistory`: one point per weight log, in order, with the value unchanged and
      the date cut to its `YYYY-MM-DD` part. */
  function FormatWeightHistory(weightLogs: seq<WeightLog>): (r: seq<WeightPoint>)
    ensures |r| == |weightLogs|
    ensures forall i :: 0 <= i < |r| ==> r[i].value == weightLogs[i].value && 'T' !in r[i].date
    ensures forall i :: 0 <= i < |r| ==>
      (weightLogs[i].date.iso == r[i].date
       || (|r[i].date| < |weightLogs[i].date.iso| && weightLogs[i].date.iso[..|r[i].date| + 1] == r[i].date + "T"))
  {
    seq(|weightLogs|, i requires 0 <= i < |weightLogs| => WeightPoint(DatePart(weightLogs[i].date.iso), weightLogs[i].value))
  }
}
