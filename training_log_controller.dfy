/** `createTrainingLog` of `trainingLogController.ts`: the request checks, in their order, the
    session's duration and total weight, the calorie estimate, and the single insert at the end.

    The routine and user the handler looks up, and the instants `new Date(startedAt)` and
    `new Date(endedAt)` stand for (as milliseconds since the epoch), are parameters. */
module TrainingLogController {
  import opened Wrappers
  import opened JsValues
  import opened StatisticsService
  import opened TrainingLogService

  /** The status code and `message` of a response. */
  datatype Response = Response(status: nat, message: string)

  /** A `User` row as the handler reads it. The `User` entity declares no `weight` column, so
      `user.weight` of a loaded user is always `undefined` and the calorie branch of the handler
      never runs; `weight` is kept to model that branch as written. */
  datatype UserRow = UserRow(id: RowId, weight: Option<real>)

  /** The `TrainingLog` the handler inserts. `trainingRepo.create` copies only the columns and
      relations the entity declares, and `TrainingLog` declares no `caloriesBurned`, so the
      calorie estimate is not part of the row. */
  datatype StoredLog = StoredLog(
    userId: RowId,
    routine: RoutineRef,
    startMs: int,
    endMs: int,
    duration: int,
    totalWeight: JsNumber,
    performances: seq<NewPerformance>)

  /** The `TrainingLog` table. */
  class TrainingLogStore {
    var logs: seq<StoredLog>

    constructor()
      ensures logs == []
    {
      logs := [];
    }

    /** `trainingRepo.save(newLog)`. */
    method Save(log: StoredLog)
      modifies this
      ensures logs == old(logs) + [log]
    {
      logs := logs + [log];
    }
  }

  /** A property of the parsed JSON body, `undefined` when absent. */
  function Field(body: map<string, JsValue>, name: string): JsValue
  {
    if name in body then body[name] else Undefined
  }

  /** `routineId`, `startedAt` and `endedAt` are truthy and `exercises` is an array. */
  predicate BodyComplete(body: map<string, JsValue>)
  {
    Truthy(Field(body, "routineId")) && Truthy(Field(body, "startedAt")) && Truthy(Field(body, "endedAt"))
    && Field(body, "exercises").Arr?
  }

  /** `Math.floor((end.getTime() - start.getTime()) / 1000)`: whole seconds, rounded down, with
      no check that the session ends after it starts. */
  function Duration(startMs: int, endMs: int): (d: int)
    ensures d * 1000 <= endMs - startMs < d * 1000 + 1000
    ensures endMs < startMs ==> d < 0
  {
    (endMs - startMs) / 1000
  }

  /** `isBodyweight ? 0 : rep * weight`: `*` converts both operands with ToNumber. */
  function SetTerm(isBodyweight: bool, rep: JsValue, weight: JsValue): JsNumber
  {
    if isBodyweight then Finite(0.0) else Multiply(ToNumber(rep), ToNumber(weight))
  }

  /** The sum the inner loop adds to `totalWeight` for one exercise. */
  function SetsTotal(reps: seq<JsValue>, weights: seq<JsValue>, isBodyweight: bool): JsNumber
    requires |reps| == |weights|
  {
    if reps == [] then Finite(0.0)
    else
      var n := |reps| - 1;
      Add(SetsTotal(reps[..n], weights[..n], isBodyweight), SetTerm(isBodyweight, reps[n], weights[n]))
  }

  /** With numeric sets the controller adds what the service adds: nothing for bodyweight, and
      Σ `reps[i] * weights[i]` otherwise. */
  lemma {:induction false} SetsTotalOfNumbers(reps: seq<JsValue>, weights: seq<JsValue>, isBodyweight: bool)
    requires |reps| == |weights|
    requires forall i :: 0 <= i < |reps| ==> reps[i].Num? && weights[i].Num?
    ensures SetsTotal(reps, weights, isBodyweight) == Finite(if isBodyweight then 0.0 else SetsWeight(reps, weights))
  {
    if reps != [] {
      var n := |reps| - 1;
      assert forall i :: 0 <= i < n ==> reps[..n][i].Num? && weights[..n][i].Num? by {
        forall i | 0 <= i < n ensures reps[..n][i].Num? && weights[..n][i].Num? {
          assert reps[..n][i] == reps[i] && weights[..n][i] == weights[i];
        }
      }
      SetsTotalOfNumbers(reps[..n], weights[..n], isBodyweight);
      SetTermOfNumbers(isBodyweight, reps[n], weights[n]);
      assert reps[..n + 1] == reps && weights[..n + 1] == weights;
      SetsTotalStep(reps, weights, isBodyweight, n);
      SetsWeightStep(reps, weights, n);
    }
  }

  lemma {:induction false} SetTermOfNumbers(isBodyweight: bool, rep: JsValue, weight: JsValue)
    requires rep.Num? && weight.Num?
    ensures SetTerm(isBodyweight, rep, weight) == Finite(if isBodyweight then 0.0 else NumOf(rep) * NumOf(weight))
  {
  }

  /** A rep written with an exponent is converted by `*`: `'1e1' * 2` is `20`. */
  lemma {:induction false} ExponentRepTerm()
    ensures SetTerm(false, Str("1e1"), Num(2.0)) == Finite(20.0)
  {
    ExponentNumeral();
  }

  /** `rep * weight` throws for some set: the product converts both operands, and a
      conversion that throws is not caught inside the loop. */
  predicate SetsConversionThrows(reps: seq<JsValue>, weights: seq<JsValue>)
    requires |reps| == |weights|
  {
    exists i :: 0 <= i < |reps| && (PrimitiveThrows(reps[i]) || PrimitiveThrows(weights[i]))
  }

  /** No product of the first `n` sets throws. */
  predicate ConvertsBefore(reps: seq<JsValue>, weights: seq<JsValue>, n: nat)
    requires n <= |reps| == |weights|
  {
    forall j :: 0 <= j < n ==> !PrimitiveThrows(reps[j]) && !PrimitiveThrows(weights[j])
  }

  /** One element of `exercises`: rejected with a message, or accepted with its performance and
      the sum its sets add. */
  datatype Verdict = Rejected(message: string) | Accepted(perf: NewPerformance, load: JsNumber)

  /** The checks of one exercise in the handler: the fields, then the lengths. Unlike
      `validateExercises` it does not look at the sets, except that a set whose product
      cannot be converted (in an exercise that is not bodyweight) throws. */
  function ExerciseVerdict(e: JsValue): Completion<Verdict>
  {
    match Destructure(e)
    case Throw => Throw
    case Normal(f) =>
      if !FieldsPresent(f) then Normal(Rejected("Ejercicio inválido"))
      else if !SameLength(f) then Normal(Rejected("Los arrays reps y weights deben tener la misma longitud"))
      else
        var bw := Truthy(f.isBodyweight);
        if !bw && SetsConversionThrows(f.reps.items, f.weights.items) then Throw
        else Normal(Accepted(NewPerformance(f.exerciseId, f.name, f.reps.items, f.weights.items, bw),
          SetsTotal(f.reps.items, f.weights.items, bw)))
  }

  predicate IsAccepted(v: Completion<Verdict>)
  {
    v.Normal? && v.value.Accepted?
  }

  /** The verdict on each element of `exercises`. */
  function Verdicts(exercises: seq<JsValue>): (vs: seq<Completion<Verdict>>)
    ensures |vs| == |exercises|
    ensures forall i :: 0 <= i < |exercises| ==> vs[i] == ExerciseVerdict(exercises[i])
  {
    seq(|exercises|, i requires 0 <= i < |exercises| => ExerciseVerdict(exercises[i]))
  }

  /** The outcome of the loop over the exercises. */
  datatype Built = Failed(message: string) | Built(performances: seq<NewPerformance>, totalWeight: JsNumber)

  /** The loop over the verdicts: the first one that is not an acceptance decides, otherwise
      every performance is listed and every sum added to `totalWeight`, which starts at 0. */
  function Combine(vs: seq<Completion<Verdict>>): Completion<Built>
  {
    if vs == [] then Normal(Built([], Finite(0.0)))
    else
      var before := Combine(vs[..|vs| - 1]);
      if before.Throw? || before.value.Failed? then before
      else
        match vs[|vs| - 1]
        case Throw => Throw
        case Normal(Rejected(m)) => Normal(Failed(m))
        case Normal(Accepted(perf, load)) =>
          Normal(Built(before.value.performances + [perf], Add(before.value.totalWeight, load)))
  }

  function BuildAll(exercises: seq<JsValue>): Completion<Built>
  {
    Combine(Verdicts(exercises))
  }

  /** Every performance has as many rep counts as weights. */
  predicate Paired(ps: seq<NewPerformance>)
  {
    forall i :: 0 <= i < |ps| ==> |ps[i].reps| == |ps[i].weights|
  }

  /** The weight a list of performances accounts for: the sets of each, a bodyweight one adding
      nothing, summed in order with `+`. */
  function PerformancesTotal(ps: seq<NewPerformance>): JsNumber
    requires Paired(ps)
  {
    if ps == [] then Finite(0.0)
    else
      var n := |ps| - 1;
      assert Paired(ps[..n]) by {
        forall i | 0 <= i < n ensures |ps[..n][i].reps| == |ps[..n][i].weights| {
          assert ps[..n][i] == ps[i];
        }
      }
      Add(PerformancesTotal(ps[..n]), SetsTotal(ps[n].reps, ps[n].weights, ps[n].isBodyweight))
  }

  /** An accepted verdict's performance pairs its sets, and its sum is the sum of those sets. */
  predicate Consistent(v: Completion<Verdict>)
  {
    v.Normal? && v.value.Accepted? ==>
      |v.value.perf.reps| == |v.value.perf.weights|
      && v.value.load == SetsTotal(v.value.perf.reps, v.value.perf.weights, v.value.perf.isBodyweight)
  }

  lemma {:induction false} VerdictConsistent(e: JsValue)
    ensures Consistent(ExerciseVerdict(e))
  {
  }

  /** The total the loop builds is the weight its performances account for. */
  lemma {:induction false} CombinedTotal(vs: seq<Completion<Verdict>>)
    requires Combine(vs).Normal? && Combine(vs).value.Built?
    requires forall i :: 0 <= i < |vs| ==> Consistent(vs[i])
    ensures Paired(Combine(vs).value.performances)
    ensures Combine(vs).value.totalWeight == PerformancesTotal(Combine(vs).value.performances)
  {
    if vs != [] {
      var n := |vs| - 1;
      var p := vs[..n];
      assert forall i :: 0 <= i < n ==> Consistent(p[i]) by {
        forall i | 0 <= i < n ensures Consistent(p[i]) {
          assert p[i] == vs[i];
        }
      }
      CombinedTotal(p);
      var ps, v := Combine(p).value.performances, vs[n].value;
      assert Consistent(vs[n]);
      var qs := ps + [v.perf];
      assert qs[..|qs| - 1] == ps && qs[|qs| - 1] == v.perf;
    }
  }

  /** Σ `reps[i] * weights[i]` over the performances that are not bodyweight. */
  function LiftedWeight(ps: seq<NewPerformance>): real
    requires Paired(ps)
  {
    if ps == [] then 0.0
    else
      var n := |ps| - 1;
      assert Paired(ps[..n]) by {
        forall i | 0 <= i < n ensures |ps[..n][i].reps| == |ps[..n][i].weights| {
          assert ps[..n][i] == ps[i];
        }
      }
      LiftedWeight(ps[..n]) + (if ps[n].isBodyweight then 0.0 else SetsWeight(ps[n].reps, ps[n].weights))
  }

  /** Every rep count and weight is a number. */
  predicate NumericSets(ps: seq<NewPerformance>)
  {
    (forall i, j :: 0 <= i < |ps| && 0 <= j < |ps[i].reps| ==> ps[i].reps[j].Num?)
    && (forall i, j :: 0 <= i < |ps| && 0 <= j < |ps[i].weights| ==> ps[i].weights[j].Num?)
  }

  /** With numeric sets the stored total is finite and is the weight the service would sum:
      Σ `reps[i] * weights[i]` over the exercises that are not bodyweight. */
  lemma {:induction false} PerformancesTotalOfNumbers(ps: seq<NewPerformance>)
    requires Paired(ps) && NumericSets(ps)
    ensures PerformancesTotal(ps) == Finite(LiftedWeight(ps))
  {
    if ps != [] {
      var n := |ps| - 1;
      NumericPrefix(ps, n);
      PerformancesTotalOfNumbers(ps[..n]);
      var last := ps[n];
      assert forall j :: 0 <= j < |last.reps| ==> last.reps[j].Num? && last.weights[j].Num?;
      SetsTotalOfNumbers(last.reps, last.weights, last.isBodyweight);
    }
  }

  lemma {:induction false} NumericPrefix(ps: seq<NewPerformance>, n: nat)
    requires Paired(ps) && NumericSets(ps) && n <= |ps|
    ensures Paired(ps[..n]) && NumericSets(ps[..n])
  {
    assert forall i :: 0 <= i < n ==> ps[..n][i] == ps[i];
  }

  /** When every verdict is an acceptance the loop builds the session, with one performance
      per exercise. */
  lemma {:induction false} CombineSucceeds(vs: seq<Completion<Verdict>>)
    requires forall i :: 0 <= i < |vs| ==> IsAccepted(vs[i])
    ensures Combine(vs).Normal? && Combine(vs).value.Built?
    ensures |Combine(vs).value.performances| == |vs|
  {
    if vs != [] {
      var n := |vs| - 1;
      var p := vs[..n];
      assert forall i :: 0 <= i < n ==> IsAccepted(p[i]) by {
        forall i | 0 <= i < n ensures IsAccepted(p[i]) {
          assert p[i] == vs[i];
        }
      }
      CombineSucceeds(p);
      assert IsAccepted(vs[n]);
    }
  }

  lemma {:induction false} CombinedLength(vs: seq<Completion<Verdict>>)
    requires Combine(vs).Normal? && Combine(vs).value.Built?
    ensures |Combine(vs).value.performances| == |vs|
  {
    if vs != [] {
      CombinedLength(vs[..|vs| - 1]);
    }
  }

  /** The loop builds the session only when every verdict is an acceptance, and lists the
      performance of every exercise in order. */
  lemma {:induction false} CombinedOnlyIfAccepted(vs: seq<Completion<Verdict>>, i: nat)
    requires Combine(vs).Normal? && Combine(vs).value.Built?
    requires i < |vs|
    ensures IsAccepted(vs[i])
    ensures i < |Combine(vs).value.performances|
    ensures Combine(vs).value.performances[i] == vs[i].value.perf
  {
    var n := |vs| - 1;
    var p := vs[..n];
    var before := Combine(p);
    assert before.Normal? && before.value.Built?;
    assert Combine(vs).value.performances == before.value.performances + [vs[n].value.perf];
    CombinedLength(p);
    if i < n {
      CombinedOnlyIfAccepted(p, i);
      assert p[i] == vs[i];
    }
  }

  /** The first verdict that is not an acceptance decides the outcome. */
  lemma {:induction false} FirstRejectionDecides(vs: seq<Completion<Verdict>>, i: nat)
    requires i < |vs| && !IsAccepted(vs[i])
    requires forall j :: 0 <= j < i ==> IsAccepted(vs[j])
    ensures Combine(vs) == match vs[i] case Throw => Throw case Normal(v) => Normal(Failed(v.message))
  {
    var n := |vs| - 1;
    var p := vs[..n];
    assert forall j :: 0 <= j < i ==> IsAccepted(p[j]) by {
      forall j | 0 <= j < i ensures IsAccepted(p[j]) {
        assert p[j] == vs[j];
      }
    }
    if i == n {
      CombineSucceeds(p);
    } else {
      assert p[i] == vs[i];
      FirstRejectionDecides(p, i);
    }
  }

  lemma {:induction false} CombineStep(vs: seq<Completion<Verdict>>, i: nat)
    requires i < |vs|
    requires Combine(vs[..i]).Normal? && Combine(vs[..i]).value.Built?
    requires IsAccepted(vs[i])
    ensures var b, v := Combine(vs[..i]).value, vs[i].value;
      Combine(vs[..i + 1]) == Normal(Built(b.performances + [v.perf], Add(b.totalWeight, v.load)))
  {
    var q := vs[..i + 1];
    assert q[..|q| - 1] == vs[..i] && q[|q| - 1] == vs[i];
  }

  /** The exercise `{ exerciseId, name, reps: [rep], weights: [weight] }` with one set. */
  function OneSet(id: string, name: string, rep: real, weight: real): JsValue
  {
    Obj(map["exerciseId" := Str(id), "name" := Str(name), "reps" := Arr([Num(rep)]), "weights" := Arr([Num(weight)])])
  }

  /** The handler accepts a one-set exercise whatever the numbers, and adds `rep * weight`. */
  lemma {:induction false} HandlerAcceptsOneSet(id: string, name: string, rep: real, weight: real)
    requires id != [] && name != []
    ensures ExerciseVerdict(OneSet(id, name, rep, weight))
      == Normal(Accepted(NewPerformance(Str(id), Str(name), [Num(rep)], [Num(weight)], false), Finite(rep * weight)))
  {
    var e := OneSet(id, name, rep, weight);
    assert Destructure(e) == Normal(ExerciseFields(Str(id), Str(name), Arr([Num(rep)]), Arr([Num(weight)]), Undefined));
    var r, w := [Num(rep)], [Num(weight)];
    assert r[..0] == [] && w[..0] == [];
    assert SetsTotal(r, w, false) == Add(Finite(0.0), Multiply(ToNumber(Num(rep)), ToNumber(Num(weight))));
    assert SetsTotal(r, w, false) == Finite(rep * weight);
    assert !Truthy(Undefined);
    var f := Destructure(e).value;
    assert FieldsPresent(f) && SameLength(f);
  }

  /** A rep given as an object with its own `toString` makes `rep * weight` throw, and the
      handler answers 500 and saves nothing, whatever the other exercises hold. */
  lemma {:induction false} ObjectRepCrashes(userId: RowId, body: map<string, JsValue>, startMs: int, endMs: int,
    routine: RoutineRef, user: UserRow, id: string, name: string, rest: seq<JsValue>)
    requires id != [] && name != []
    requires Truthy(Field(body, "routineId")) && Truthy(Field(body, "startedAt")) && Truthy(Field(body, "endedAt"))
    requires Field(body, "exercises") == Arr([Obj(map["exerciseId" := Str(id), "name" := Str(name),
      "reps" := Arr([Obj(map["toString" := Num(1.0)])]), "weights" := Arr([Num(2.0)])])] + rest)
    ensures CreateOutcome(userId, body, startMs, endMs, Some(routine), Some(user))
      == Outcome(Response(500, "Error interno al registrar sesión"), None)
  {
    var items := Field(body, "exercises").items;
    var e := items[0];
    var f := Destructure(e).value;
    assert f.reps.items[0] == Obj(map["toString" := Num(1.0)]) && !Truthy(f.isBodyweight);
    assert ExerciseVerdict(e) == Throw;
    FirstRejectionDecides(Verdicts(items), 0);
  }

  /** `validateExercises` rejects a set with a negative weight. */
  lemma {:induction false} ServiceRejectsNegativeWeight(id: string, name: string, rep: real, weight: real)
    requires weight < 0.0
    ensures CheckExercise(OneSet(id, name, rep, weight)) == Normal(None)
  {
    var e := OneSet(id, name, rep, weight);
    var f := Destructure(e).value;
    assert f.reps == Arr([Num(rep)]) && f.weights == Arr([Num(weight)]);
    assert !SetOk(f.reps.items[0], f.weights.items[0]);
  }

  /** Nothing checks the sign of a set: an exercise with a negative weight is accepted and
      lowers the total, while `validateExercises` rejects it. */
  lemma {:induction false} NegativeWeightAccepted()
    ensures var e := OneSet("0001", "curl", 5.0, -10.0);
      && ExerciseVerdict(e).Normal? && ExerciseVerdict(e).value.Accepted?
      && ExerciseVerdict(e).value.load == Finite(-50.0)
      && CheckExercise(e) == Normal(None)
  {
    HandlerAcceptsOneSet("0001", "curl", 5.0, -10.0);
    ServiceRejectsNegativeWeight("0001", "curl", 5.0, -10.0);
  }

  /** What the handler answers and, on success, the session it inserts. */
  datatype Outcome = Outcome(response: Response, saved: Option<StoredLog>)

  /** `createTrainingLog`: the body checks, the routine lookup, the user lookup, the exercise
      loop, and the insert. A `TypeError` in the loop is answered with 500. */
  function CreateOutcome(userId: RowId, body: map<string, JsValue>, startMs: int, endMs: int,
    routine: Option<RoutineRef>, user: Option<UserRow>): (o: Outcome)
    ensures o.saved.Some? <==> o.response.status == 201
    ensures o.saved.Some? ==> BodyComplete(body) && routine.Some? && user.Some?
    ensures BodyComplete(body) && routine.None? ==> o.response == Response(404, "Rutina no encontrada")
  {
    if !BodyComplete(body) then Outcome(Response(400, "Faltan datos obligatorios"), None)
    else if routine.None? then Outcome(Response(404, "Rutina no encontrada"), None)
    else if user.None? then Outcome(Response(404, "Usuario no encontrado"), None)
    else
      var exercises := Field(body, "exercises").items;
      var duration := Duration(startMs, endMs);
      match BuildAll(exercises)
      case Throw => Outcome(Response(500, "Error interno al registrar sesión"), None)
      case Normal(Failed(m)) => Outcome(Response(400, m), None)
      case Normal(Built(performances, totalWeight)) =>
        Outcome(Response(201, "Sesión registrada correctamente"),
          Some(StoredLog(userId, routine.value, startMs, endMs, duration, totalWeight, performances)))
  }

  /** The stored session: its duration in whole seconds, one performance per exercise, and a
      total weight that is the sum of the sets of those performances as `+=` adds them. */
  lemma {:induction false} StoredSession(userId: RowId, body: map<string, JsValue>, startMs: int, endMs: int,
    routine: Option<RoutineRef>, user: Option<UserRow>)
    requires CreateOutcome(userId, body, startMs, endMs, routine, user).saved.Some?
    ensures var log := CreateOutcome(userId, body, startMs, endMs, routine, user).saved.value;
      && log.duration * 1000 <= endMs - startMs < log.duration * 1000 + 1000
      && |log.performances| == |Field(body, "exercises").items|
      && Paired(log.performances) && log.totalWeight == PerformancesTotal(log.performances)
      && log.routine == routine.value && log.userId == userId
  {
    var items := Field(body, "exercises").items;
    var vs := Verdicts(items);
    CombinedLength(vs);
    forall i | 0 <= i < |vs| ensures Consistent(vs[i]) {
      VerdictConsistent(items[i]);
    }
    CombinedTotal(vs);
  }

  /** A session is stored only when every exercise of the request is accepted, and its
      performances are those of the exercises, in order. */
  lemma {:induction false} StoredOnlyIfAccepted(userId: RowId, body: map<string, JsValue>, startMs: int, endMs: int,
    routine: Option<RoutineRef>, user: Option<UserRow>, i: nat)
    requires CreateOutcome(userId, body, startMs, endMs, routine, user).saved.Some?
    requires i < |Field(body, "exercises").items|
    ensures IsAccepted(ExerciseVerdict(Field(body, "exercises").items[i]))
    ensures var log := CreateOutcome(userId, body, startMs, endMs, routine, user).saved.value;
      i < |log.performances| && log.performances[i] == ExerciseVerdict(Field(body, "exercises").items[i]).value.perf
  {
    CombinedOnlyIfAccepted(Verdicts(Field(body, "exercises").items), i);
  }

  lemma {:induction false} SetsTotalStep(reps: seq<JsValue>, weights: seq<JsValue>, isBodyweight: bool, i: nat)
    requires |reps| == |weights| && i < |reps|
    ensures SetsTotal(reps[..i + 1], weights[..i + 1], isBodyweight)
      == Add(SetsTotal(reps[..i], weights[..i], isBodyweight), SetTerm(isBodyweight, reps[i], weights[i]))
  {
    var r, w := reps[..i + 1], weights[..i + 1];
    assert r[..|r| - 1] == reps[..i] && w[..|w| - 1] == weights[..i];
  }

  lemma {:induction false} AddAssociative(a: JsNumber, b: JsNumber, c: JsNumber)
    ensures Add(Add(a, b), c) == Add(a, Add(b, c))
  {
    if !a.NaN? && !b.NaN? && !c.NaN? && a.Finite? && b.Finite? && c.Finite? {
      assert Add(Add(a, b), c) == Finite(a.r + b.r + c.r);
    }
  }

  lemma {:induction false} RunningTotalStep(total: JsNumber, reps: seq<JsValue>, weights: seq<JsValue>, isBodyweight: bool, i: nat)
    requires |reps| == |weights| && i < |reps|
    ensures Add(Add(total, SetsTotal(reps[..i], weights[..i], isBodyweight)), SetTerm(isBodyweight, reps[i], weights[i]))
      == Add(total, SetsTotal(reps[..i + 1], weights[..i + 1], isBodyweight))
  {
    SetsTotalStep(reps, weights, isBodyweight, i);
    AddAssociative(total, SetsTotal(reps[..i], weights[..i], isBodyweight), SetTerm(isBodyweight, reps[i], weights[i]));
  }

  /** The inner loop: `totalWeight += (isBodyweight ? 0 : rep * weight)` for every set, or
      `thrown` when a product throws. */
  method AddSets(total: JsNumber, reps: seq<JsValue>, weights: seq<JsValue>, isBodyweight: bool)
    returns (thrown: bool, t: JsNumber)
    requires |reps| == |weights|
    ensures thrown <==> !isBodyweight && SetsConversionThrows(reps, weights)
    ensures !thrown ==> t == Add(total, SetsTotal(reps, weights, isBodyweight))
  {
    t := total;
    var i := 0;
    while i < |reps|
      invariant i <= |reps|
      invariant !isBodyweight ==> ConvertsBefore(reps, weights, i)
      invariant t == Add(total, SetsTotal(reps[..i], weights[..i], isBodyweight))
    {
      if !isBodyweight && (PrimitiveThrows(reps[i]) || PrimitiveThrows(weights[i])) {
        return true, t;
      }
      RunningTotalStep(total, reps, weights, isBodyweight, i);
      t := Add(t, SetTerm(isBodyweight, reps[i], weights[i]));
      i := i + 1;
    }
    assert reps[..i] == reps && weights[..i] == weights;
    return false, t;
  }

  /** One iteration of the exercise loop, with the sum its sets add to `total`. */
  method CheckExerciseRequest(e: JsValue, total: JsNumber) returns (v: Completion<Verdict>, t: JsNumber)
    ensures v == ExerciseVerdict(e)
    ensures v.Normal? && v.value.Accepted? ==> t == Add(total, v.value.load)
  {
    t := total;
    if e == Undefined || e == Null {
      return Throw, t;
    }
    var f := Destructure(e).value;
    if !Truthy(f.exerciseId) || !Truthy(f.name) || !f.reps.Arr? || !f.weights.Arr? {
      return Normal(Rejected("Ejercicio inválido")), t;
    }
    var reps, weights := f.reps.items, f.weights.items;
    if |reps| != |weights| {
      return Normal(Rejected("Los arrays reps y weights deben tener la misma longitud")), t;
    }
    var bw := Truthy(f.isBodyweight);
    var perf := NewPerformance(f.exerciseId, f.name, reps, weights, bw);
    var thrown;
    thrown, t := AddSets(total, reps, weights, bw);
    if thrown {
      return Throw, t;
    }
    return Normal(Accepted(perf, SetsTotal(reps, weights, bw))), t;
  }

  /** `if (user.weight) { caloriesBurned = 0.0175 * MET * user.weight * minutes }`, MET 6. */
  method SessionCalories(weight: Option<real>, duration: int) returns (caloriesBurned: Option<real>)
    ensures caloriesBurned == CaloriesBurned(weight, duration as real)
  {
    caloriesBurned := None;
    if weight.Some? && weight.value != 0.0 {
      var minutes := duration as real / 60.0;
      caloriesBurned := Some(0.0175 * 6.0 * weight.value * minutes);
      assert CaloriesBurned(weight, duration as real).value == caloriesBurned.value;
    } else {
      assert CaloriesBurned(weight, duration as real) == None;
    }
  }

  /** `for (const e of exercises) { ... }`: the performances and the total, or the answer of
      the first exercise that is not accepted. */
  method BuildPerformances(items: seq<JsValue>) returns (r: Completion<Built>)
    ensures r == BuildAll(items)
  {
    var performances: seq<NewPerformance> := [];
    var totalWeight := Finite(0.0);
    ghost var vs := Verdicts(items);
    var k := 0;
    while k < |items|
      invariant k <= |items|
      invariant forall j :: 0 <= j < k ==> IsAccepted(vs[j])
      invariant Combine(vs[..k]) == Normal(Built(performances, totalWeight))
    {
      var v, t := CheckExerciseRequest(items[k], totalWeight);
      if v.Throw? {
        FirstRejectionDecides(vs, k);
        return Throw;
      }
      if v.value.Rejected? {
        FirstRejectionDecides(vs, k);
        return Normal(Failed(v.value.message));
      }
      assert vs[k] == v;
      CombineStep(vs, k);
      assert forall j :: 0 <= j < k + 1 ==> IsAccepted(vs[j]) by {
        forall j | 0 <= j < k + 1 ensures IsAccepted(vs[j]) {
          if j == k { assert vs[j] == v; }
        }
      }
      performances := performances + [v.value.perf];
      totalWeight := t;
      k := k + 1;
    }
    assert vs[..k] == vs;
    return Normal(Built(performances, totalWeight));
  }

  /** The handler. It answers as `CreateOutcome` says and inserts the session only on success. */
  method CreateTrainingLog(store: TrainingLogStore, userId: RowId, body: map<string, JsValue>, startMs: int, endMs: int,
    routine: Option<RoutineRef>, user: Option<UserRow>) returns (response: Response)
    modifies store
    ensures var o := CreateOutcome(userId, body, startMs, endMs, routine, user);
      response == o.response && store.logs == old(store.logs) + (if o.saved.Some? then [o.saved.value] else [])
  {
    var routineId, startedAt, endedAt, exercises := Field(body, "routineId"), Field(body, "startedAt"), Field(body, "endedAt"), Field(body, "exercises");
    if !Truthy(routineId) || !Truthy(startedAt) || !Truthy(endedAt) || !exercises.Arr? {
      return Response(400, "Faltan datos obligatorios");
    }
    if routine.None? {
      return Response(404, "Rutina no encontrada");
    }
    if user.None? {
      return Response(404, "Usuario no encontrado");
    }
    var duration := (endMs - startMs) / 1000;
    var built := BuildPerformances(exercises.items);
    if built.Throw? {
      return Response(500, "Error interno al registrar sesión");
    }
    if built.value.Failed? {
      return Response(400, built.value.message);
    }
    var caloriesBurned := SessionCalories(user.value.weight, duration);
    store.Save(StoredLog(userId, routine.value, startMs, endMs, duration, built.value.totalWeight, built.value.performances));
    return Response(201, "Sesión registrada correctamente");
  }
}
