/** `getExerciseImprovement` of `statisticsService.ts`: the performances of a user, in ascending
    id order, are grouped by exercise into dated weight entries; every group yields the first and
    last weight and the percentage between them; without `showAll` only the five most improved
    exercises are kept.

    The performances are a parameter (the service loads them with a query ordered by id). The
    query joins the session without selecting it, so a performance's `trainingLog` may be
    missing, and a session's `user` likewise. */
module ExerciseImprovement {
  import opened Wrappers
  import opened JsStrings
  import opened Seqs
  import opened StableSort
  import opened JsObjects
  import opened WeekNumbering
  import opened JsValues
  import opened StatisticsService

  /** The `user` of a session, with the `weight` the bodyweight branch reads. */
  datatype UserRef = UserRef(weight: Option<real>)

  /** The `trainingLog` of a performance, as far as the query loaded it. */
  datatype LogRef = LogRef(startedAt: Option<Instant>, user: Option<UserRef>)

  /** A loaded `ExercisePerformance`. */
  datatype LoadedPerformance = LoadedPerformance(
    id: RowId,
    exerciseId: string,
    name: string,
    weights: seq<real>,
    isBodyweight: bool,
    trainingLog: Option<LogRef>)

  /** `{ date, weight }`. */
  datatype Entry = Entry(date: string, weight: real)

  /** `{ name, entries }`, the value of `grouped[exerciseId]`. */
  datatype Group = Group(name: string, entries: seq<Entry>)

  /** `perf.trainingLog.user.weight` throws a `TypeError` when the session or its user was not
      loaded; only the bodyweight branch reads it. */
  predicate Throws(p: LoadedPerformance)
  {
    p.isBodyweight && (p.trainingLog.None? || p.trainingLog.value.user.None?)
  }

  /** `perf.isBodyweight ? perf.trainingLog.user.weight ?? 0 : Math.max(...perf.weights)`, for a
      performance that does not throw. */
  function WeightOf(p: LoadedPerformance): real
  {
    if p.isBodyweight then
      (if p.trainingLog.Some? && p.trainingLog.value.user.Some? then p.trainingLog.value.user.value.weight.GetOr(0.0) else 0.0)
    else PerfMax(p.weights)
  }

  /** `!perf.trainingLog || !perf.trainingLog.startedAt` fails: the entry is recorded. */
  predicate HasDate(p: LoadedPerformance)
  {
    p.trainingLog.Some? && p.trainingLog.value.startedAt.Some?
  }

  /** `{ date: startedAt.toISOString().split('T')[0], weight }` of a performance with a date. */
  function EntryOf(p: LoadedPerformance): Entry
  {
    Entry(if HasDate(p) then DatePart(p.trainingLog.value.startedAt.value.iso) else [], WeightOf(p))
  }

  function ExerciseIdOf(p: LoadedPerformance): string
  {
    p.exerciseId
  }

  /** The exercise id of every performance, in order. */
  function ExerciseIdsOf(perfs: seq<LoadedPerformance>): seq<string>
  {
    MapSeq(perfs, ExerciseIdOf)
  }

  /** The name of the first performance of exercise `k`. */
  function FirstPerfName(perfs: seq<LoadedPerformance>, k: string): string
    requires k in ExerciseIdsOf(perfs)
  {
    MapSeqIndex(perfs, ExerciseIdOf);
    perfs[FirstIndex(ExerciseIdsOf(perfs), k)].name
  }

  function DatedOf(k: string): LoadedPerformance -> bool
  {
    (p: LoadedPerformance) => p.exerciseId == k && HasDate(p)
  }

  /** The entries of exercise `k`: one per dated performance of that exercise, in input order. */
  function GroupEntries(perfs: seq<LoadedPerformance>, k: string): seq<Entry>
  {
    MapSeq(Filter(perfs, DatedOf(k)), EntryOf)
  }

  /** The dictionary `grouped` after the loop over `perfs`, none of which throws: a group is
      created at the first performance of an exercise, and a performance with a date appends an
      entry to its group. */
  function Grouped(perfs: seq<LoadedPerformance>): Record<Group>
  {
    if perfs == [] then Record([], map[])
    else
      var rec, p := Grouped(perfs[..|perfs| - 1]), perfs[|perfs| - 1];
      var started := if p.exerciseId in rec.values then rec else Put(rec, p.exerciseId, Group(p.name, []));
      if HasDate(p) then
        Put(started, p.exerciseId, Group(started.values[p.exerciseId].name, started.values[p.exerciseId].entries + [EntryOf(p)]))
      else started
  }

  /** `grouped` stays a well-formed object. */
  lemma {:induction false} GroupedValid(perfs: seq<LoadedPerformance>)
    ensures Grouped(perfs).Valid()
  {
    if perfs != [] {
      var rec, p := Grouped(perfs[..|perfs| - 1]), perfs[|perfs| - 1];
      GroupedValid(perfs[..|perfs| - 1]);
      PutValid(rec, p.exerciseId, Group(p.name, []));
      var started := if p.exerciseId in rec.values then rec else Put(rec, p.exerciseId, Group(p.name, []));
      var g := started.values[p.exerciseId];
      PutValid(started, p.exerciseId, Group(g.name, g.entries + [EntryOf(p)]));
    }
  }

  /** One more performance: its exercise gets a group if it had none, named after it, and the
      group gains its entry if it has a date; every other group stays. */
  lemma {:induction false} GroupedStep(q: seq<LoadedPerformance>, p: LoadedPerformance)
    ensures var rec, rec' := Grouped(q), Grouped(q + [p]);
      var k := p.exerciseId;
      var old_ := if k in rec.values then rec.values[k] else Group(p.name, []);
      && rec'.keys == (if k in rec.values then rec.keys else rec.keys + [k])
      && rec'.values.Keys == rec.values.Keys + {k}
      && (forall j :: j in rec.values && j != k ==> rec'.values[j] == rec.values[j])
      && rec'.values[k] == Group(old_.name, old_.entries + (if HasDate(p) then [EntryOf(p)] else []))
  {
    assert (q + [p])[..|q + [p]| - 1] == q;
    assert (q + [p])[|q + [p]| - 1] == p;
    var rec := Grouped(q);
    var k := p.exerciseId;
    var old_ := if k in rec.values then rec.values[k] else Group(p.name, []);
    assert old_.entries + [] == old_.entries;
  }

  lemma {:induction false} FirstPerfNameSnoc(q: seq<LoadedPerformance>, p: LoadedPerformance, k: string)
    ensures ExerciseIdsOf(q + [p]) == ExerciseIdsOf(q) + [p.exerciseId]
    ensures k in ExerciseIdsOf(q) ==> FirstPerfName(q + [p], k) == FirstPerfName(q, k)
    ensures k !in ExerciseIdsOf(q) && k == p.exerciseId ==> FirstPerfName(q + [p], k) == p.name
  {
    var perfs := q + [p];
    var ks, ks' := ExerciseIdsOf(q), ExerciseIdsOf(perfs);
    MapSeqSnoc(q, p, ExerciseIdOf);
    MapSeqIndex(perfs, ExerciseIdOf);
    if k in ks {
      FirstIndexOfPrefix(ks', k, |ks|);
      assert ks'[..|ks|] == ks;
      var j := FirstIndex(ks, k);
      assert perfs[j] == q[j];
    } else if k == p.exerciseId {
      assert FirstIndex(ks', k) == |ks|;
    }
  }

  lemma {:induction false} GroupEntriesSnoc(q: seq<LoadedPerformance>, p: LoadedPerformance, k: string)
    ensures GroupEntries(q + [p], k) == GroupEntries(q, k) + (if p.exerciseId == k && HasDate(p) then [EntryOf(p)] else [])
  {
    FilterSnoc(q, p, DatedOf(k));
    var f := Filter(q, DatedOf(k));
    assert DatedOf(k)(p) == (p.exerciseId == k && HasDate(p));
    if p.exerciseId == k && HasDate(p) {
      MapSeqSnoc(f, p, EntryOf);
    } else {
      assert Filter(q + [p], DatedOf(k)) == f;
      assert GroupEntries(q, k) + [] == GroupEntries(q, k);
    }
  }

  /** An exercise that does not occur has no entries. */
  lemma {:induction false} GroupEntriesAbsent(perfs: seq<LoadedPerformance>, k: string)
    requires k !in ExerciseIdsOf(perfs)
    ensures GroupEntries(perfs, k) == []
  {
    MapSeqIndex(perfs, ExerciseIdOf);
    forall x | x in perfs ensures !DatedOf(k)(x) {
      var j :| 0 <= j < |perfs| && perfs[j] == x;
      assert ExerciseIdsOf(perfs)[j] == x.exerciseId;
    }
    FilterNone(perfs, DatedOf(k));
  }

  /** There is a group for exactly the exercises that occur, even one all of whose
      performances lack a date; it carries the name of the exercise's first performance and one
      entry per dated performance, in input order. */
  lemma {:induction false} GroupedMeaning(perfs: seq<LoadedPerformance>, k: string)
    ensures k in Grouped(perfs).values <==> k in ExerciseIdsOf(perfs)
    ensures k in Grouped(perfs).values ==>
      k in ExerciseIdsOf(perfs) && Grouped(perfs).values[k] == Group(FirstPerfName(perfs, k), GroupEntries(perfs, k))
  {
    if perfs != [] {
      var q, p := perfs[..|perfs| - 1], perfs[|perfs| - 1];
      assert perfs == q + [p];
      GroupedMeaning(q, k);
      GroupedStep(q, p);
      FirstPerfNameSnoc(q, p, k);
      GroupEntriesSnoc(q, p, k);
      if k !in ExerciseIdsOf(q) {
        GroupEntriesAbsent(q, k);
      }
    }
  }

  /** The groups are listed in order of their exercise's first occurrence. */
  lemma {:induction false} GroupedKeys(perfs: seq<LoadedPerformance>)
    ensures Grouped(perfs).keys == Distinct(ExerciseIdsOf(perfs))
  {
    if perfs != [] {
      var q, p := perfs[..|perfs| - 1], perfs[|perfs| - 1];
      assert perfs == q + [p];
      GroupedKeys(q);
      GroupedMeaning(q, p.exerciseId);
      GroupedStep(q, p);
      MapSeqSnoc(q, p, ExerciseIdOf);
      DistinctAppend(ExerciseIdsOf(q), p.exerciseId);
    }
  }

  lemma {:induction false} GroupStep(q: seq<LoadedPerformance>, i: nat)
    requires i < |q|
    ensures var rec, p := Grouped(q[..i]), q[i];
      var started := if p.exerciseId !in rec.values then Put(rec, p.exerciseId, Group(p.name, [])) else rec;
      Grouped(q[..i + 1]) ==
        if HasDate(p) then
          Put(started, p.exerciseId, Group(started.values[p.exerciseId].name, started.values[p.exerciseId].entries + [EntryOf(p)]))
        else started
  {
    var s := q[..i + 1];
    assert s[..|s| - 1] == q[..i] && s[|s| - 1] == q[i];
  }

  // ---------------------------------------------------------------------------------------
  // One result per group

  function EntryWeight(e: Entry): real
  {
    e.weight
  }

  /** `data.entries.map(e => e.weight)`. */
  function Weights(entries: seq<Entry>): seq<real>
  {
    MapSeq(entries, EntryWeight)
  }

  /** `first > 0 ? ((last - first) / first) * 100 : 0`; `weights[0]` of an empty list is
      `undefined`, and `undefined > 0` is false. */
  function RawImprovement(ws: seq<real>): (r: real)
    ensures |ws| > 0 && ws[0] > 0.0 ==>
      (r > 0.0 <==> ws[|ws| - 1] > ws[0]) && (r == 0.0 <==> ws[|ws| - 1] == ws[0]) && (r < 0.0 <==> ws[|ws| - 1] < ws[0])
    ensures |ws| == 0 || ws[0] <= 0.0 ==> r == 0.0
    ensures |ws| > 0 && ws[0] > 0.0 ==> r * ws[0] == (ws[|ws| - 1] - ws[0]) * 100.0
  {
    if |ws| > 0 && ws[0] > 0.0 then
      var first, last := ws[0], ws[|ws| - 1];
      var r := (last - first) / first * 100.0;
      assert r * first == (last - first) * 100.0;
      r
    else 0.0
  }

  /** The number of hundredths `toFixed(2)` writes for a non-negative number: the nearest
      one, the larger on a tie. */
  function RoundedHundredths(y: real): (n: int)
    requires y >= 0.0
    ensures n >= 0
  {
    (y * 100.0 + 0.5).Floor
  }

  /** `parseFloat(x.toFixed(2))`: `toFixed` rounds the magnitude and keeps the sign, so halves
      round away from zero; the result is a whole number of hundredths. */
  function ToFixed2(x: real): real
  {
    (if x < 0.0 then -RoundedHundredths(-x) else RoundedHundredths(x)) as real / 100.0
  }

  /** The rounding moves a number by at most half a hundredth, a tie away from zero, and keeps
      its sign. */
  lemma {:induction false} ToFixed2Close(x: real)
    ensures x >= 0.0 ==> -0.005 < ToFixed2(x) - x <= 0.005
    ensures x < 0.0 ==> -0.005 <= ToFixed2(x) - x < 0.005
    ensures x >= 0.0 ==> ToFixed2(x) >= 0.0
    ensures x <= 0.0 ==> ToFixed2(x) <= 0.0
  {
    var y := if x < 0.0 then -x else x;
    var n := RoundedHundredths(y);
    assert n as real <= y * 100.0 + 0.5 < n as real + 1.0;
  }

  /** The rounding never reverses an order. */
  lemma {:induction false} ToFixed2Monotone(x: real, y: real)
    requires x <= y
    ensures ToFixed2(x) <= ToFixed2(y)
  {
    if x >= 0.0 || y < 0.0 {
      var a, b := if x >= 0.0 then x else -y, if x >= 0.0 then y else -x;
      var na, nb := RoundedHundredths(a), RoundedHundredths(b);
      assert na as real <= a * 100.0 + 0.5 <= b * 100.0 + 0.5 < nb as real + 1.0;
      assert na <= nb;
    }
  }

  /** An element of `results`; `firstWeight` and `lastWeight` are `undefined` for a group
      without entries. */
  datatype ExerciseResult = ExerciseResult(
    exerciseId: string,
    name: string,
    firstWeight: Option<real>,
    lastWeight: Option<real>,
    improvement: real,
    progress: seq<Entry>)

  /** The result of one `[exerciseId, data]` entry of `grouped`. */
  function ToResult(k: string, g: Group): ExerciseResult
  {
    var ws := Weights(g.entries);
    ExerciseResult(k, g.name,
      if |ws| > 0 then Some(ws[0]) else None,
      if |ws| > 0 then Some(ws[|ws| - 1]) else None,
      ToFixed2(RawImprovement(ws)),
      g.entries)
  }

  /** `Object.entries(grouped).map(...)`. */
  function Results(rec: Record<Group>): (r: seq<ExerciseResult>)
    requires rec.Valid()
    ensures |r| == |rec.keys|
  {
    var ks := Keys(rec);
    seq(|ks|, i requires 0 <= i < |ks| => ToResult(ks[i], rec.values[ks[i]]))
  }

  /** The results for a list of performances none of which throws. */
  function ResultsOf(perfs: seq<LoadedPerformance>): seq<ExerciseResult>
  {
    GroupedValid(perfs);
    Results(Grouped(perfs))
  }

  /** One result per exercise that occurs. */
  lemma {:induction false} ResultsCount(perfs: seq<LoadedPerformance>)
    ensures |ResultsOf(perfs)| == |Distinct(ExerciseIdsOf(perfs))|
  {
    GroupedKeys(perfs);
  }

  /** Every exercise that occurs has a result, even when none of its performances is dated. */
  lemma {:induction false} ResultsCover(perfs: seq<LoadedPerformance>, k: string)
    requires k in ExerciseIdsOf(perfs)
    ensures exists i :: 0 <= i < |ResultsOf(perfs)| && ResultsOf(perfs)[i].exerciseId == k
  {
    var rec := Grouped(perfs);
    GroupedValid(perfs);
    GroupedMeaning(perfs, k);
    var ks := Keys(rec);
    var i :| 0 <= i < |ks| && ks[i] == k;
    assert ResultsOf(perfs)[i].exerciseId == k;
  }

  /** Each result is that of one occurring exercise: its first name, its dated entries in input
      order, their first and last weight, and the rounded improvement between them. */
  lemma {:induction false} ResultAt(perfs: seq<LoadedPerformance>, i: nat)
    requires i < |ResultsOf(perfs)|
    ensures var x := ResultsOf(perfs)[i];
      && x.exerciseId in ExerciseIdsOf(perfs)
      && x.name == FirstPerfName(perfs, x.exerciseId)
      && x.progress == GroupEntries(perfs, x.exerciseId)
      && x.firstWeight == (if x.progress == [] then None else Some(x.progress[0].weight))
      && x.lastWeight == (if x.progress == [] then None else Some(x.progress[|x.progress| - 1].weight))
      && x.improvement == ToFixed2(RawImprovement(Weights(x.progress)))
  {
    var rec := Grouped(perfs);
    GroupedValid(perfs);
    var k := Keys(rec)[i];
    assert ResultsOf(perfs)[i] == ToResult(k, rec.values[k]);
    GroupedMeaning(perfs, k);
    MapSeqIndex(rec.values[k].entries, EntryWeight);
  }

  // ---------------------------------------------------------------------------------------
  // The five most improved exercises

  /** `{ exerciseId, name, improvement }`. */
  datatype Summary = Summary(exerciseId: string, name: string, improvement: real)

  function Summarize(x: ExerciseResult): Summary
  {
    Summary(x.exerciseId, x.name, x.improvement)
  }

  function NegImprovement(x: ExerciseResult): real
  {
    -x.improvement
  }

  /** `results.sort((a, b) => b.improvement - a.improvement)`. */
  function ByImprovement(results: seq<ExerciseResult>): (r: seq<ExerciseResult>)
    ensures multiset(r) == multiset(results)
    ensures forall i, j :: 0 <= i < j < |r| ==> r[i].improvement >= r[j].improvement
  {
    var r := SortBy(results, NegImprovement);
    assert forall i, j :: 0 <= i < j < |r| ==> NegImprovement(r[i]) <= NegImprovement(r[j]);
    r
  }

  /** `.slice(0, 5).map(({ exerciseId, name, improvement }) => ...)` of the sorted results. */
  function TopFive(results: seq<ExerciseResult>): seq<Summary>
  {
    var sorted := ByImprovement(results);
    MapSeq(sorted[..if |sorted| < 5 then |sorted| else 5], Summarize)
  }

  /** At most five summaries, in non-increasing improvement, each of one of the results. */
  lemma {:induction false} TopFiveShape(results: seq<ExerciseResult>)
    ensures |TopFive(results)| == if |results| < 5 then |results| else 5
    ensures forall i, j :: 0 <= i < j < |TopFive(results)| ==> TopFive(results)[i].improvement >= TopFive(results)[j].improvement
    ensures forall i :: 0 <= i < |TopFive(results)| ==> exists x :: x in results && TopFive(results)[i] == Summarize(x)
  {
    var sorted := ByImprovement(results);
    var n := if |sorted| < 5 then |sorted| else 5;
    var top := TopFive(results);
    assert |sorted| == |results| by {
      assert |sorted| == |multiset(sorted)| == |multiset(results)| == |results|;
    }
    assert forall i :: 0 <= i < n ==> top[i] == Summarize(sorted[i]) by {
      MapSeqIndex(sorted[..n], Summarize);
    }
    forall i, j | 0 <= i < j < n ensures top[i].improvement >= top[j].improvement {
      assert top[i] == Summarize(sorted[i]) && top[j] == Summarize(sorted[j]);
    }
    forall i | 0 <= i < n ensures exists x :: x in results && top[i] == Summarize(x) {
      assert sorted[i] in multiset(sorted);
      assert sorted[i] in results && top[i] == Summarize(sorted[i]);
    }
  }

  /** The summaries are of the most improved results: the sorted results split into the ones
      kept and the ones dropped, and none dropped improved more than the last one kept. */
  lemma {:induction false} TopFiveIsBest(results: seq<ExerciseResult>)
    ensures var sorted := ByImprovement(results);
      var n := if |sorted| < 5 then |sorted| else 5;
      && multiset(sorted[..n]) + multiset(sorted[n..]) == multiset(results)
      && MapSeq(sorted[..n], Summarize) == TopFive(results)
      && (forall j :: n <= j < |sorted| ==> sorted[j].improvement <= sorted[n - 1].improvement)
  {
    var sorted := ByImprovement(results);
    var n := if |sorted| < 5 then |sorted| else 5;
    assert sorted == sorted[..n] + sorted[n..];
  }

  /** Equal improvements keep their `Object.entries` order. */
  lemma {:induction false} ByImprovementStable(results: seq<ExerciseResult>, c: real)
    ensures Block(ByImprovement(results), NegImprovement, c) == Block(results, NegImprovement, c)
  {
    SortByStable(results, NegImprovement, c);
  }

  // ---------------------------------------------------------------------------------------
  // The service function

  /** What `getExerciseImprovement` returns: every result, or the five summaries. */
  datatype Report = All(results: seq<ExerciseResult>) | Top(summaries: seq<Summary>)

  function ReportOf(perfs: seq<LoadedPerformance>, showAll: bool): Report
  {
    if showAll then All(ResultsOf(perfs)) else Top(TopFive(ResultsOf(perfs)))
  }

  /** `getExerciseImprovement(userId, showAll)` on the loaded performances of the user. A
      `TypeError` escapes as soon as a bodyweight performance lacks its session or user. */
  method GetExerciseImprovement(perfs: seq<LoadedPerformance>, showAll: bool) returns (r: Completion<Report>)
    requires forall i :: 0 <= i < |perfs| ==> perfs[i].isBodyweight || |perfs[i].weights| > 0
    ensures r.Throw? <==> exists i :: 0 <= i < |perfs| && Throws(perfs[i])
    ensures r.Normal? ==> r.value == ReportOf(perfs, showAll)
  {
    var grouped: Record<Group> := Record([], map[]);
    var i := 0;
    while i < |perfs|
      invariant i <= |perfs|
      invariant forall j :: 0 <= j < i ==> !Throws(perfs[j])
      invariant grouped == Grouped(perfs[..i])
    {
      var perf := perfs[i];
      var weight: real;
      if perf.isBodyweight {
        if perf.trainingLog.None? || perf.trainingLog.value.user.None? {
          return Throw;
        }
        weight := perf.trainingLog.value.user.value.weight.GetOr(0.0);
      } else {
        weight := SeqMax(perf.weights);
      }
      assert weight == WeightOf(perf);
      GroupStep(perfs, i);
      if perf.exerciseId !in grouped.values {
        grouped := Put(grouped, perf.exerciseId, Group(perf.name, []));
      }
      if HasDate(perf) {
        var entry := Entry(DatePart(perf.trainingLog.value.startedAt.value.iso), weight);
        grouped := Put(grouped, perf.exerciseId,
          Group(grouped.values[perf.exerciseId].name, grouped.values[perf.exerciseId].entries + [entry]));
      }
      i := i + 1;
    }
    assert perfs[..i] == perfs;
    GroupedValid(perfs);
    var results := Results(grouped);
    if !showAll {
      return Normal(Top(TopFive(results)));
    }
    return Normal(All(results));
  }
}
