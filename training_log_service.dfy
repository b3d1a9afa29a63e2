/** `validateExercises` and `calculateCaloriesBurned` of `trainingLogService.ts`: the checks a
    list of performed exercises must pass before a session is stored, the total lifted weight,
    and the calorie estimate of a session. */
module TrainingLogService {
  import opened Wrappers
  import opened JsValues
  import opened Seqs

  /** A new `ExercisePerformance`: the request's values copied, `isBodyweight` made boolean. */
  datatype NewPerformance = NewPerformance(
    exerciseId: JsValue,
    name: JsValue,
    reps: seq<JsValue>,
    weights: seq<JsValue>,
    isBodyweight: bool)

  /** `{ performances, totalWeight }`. */
  datatype Validated = Validated(performances: seq<NewPerformance>, totalWeight: real)

  /** `const { exerciseId, name, reps, weights, isBodyweight } = e`. */
  datatype ExerciseFields = ExerciseFields(exerciseId: JsValue, name: JsValue, reps: JsValue, weights: JsValue, isBodyweight: JsValue)

  /** Destructuring throws a `TypeError` on `undefined` and `null`. */
  function Destructure(e: JsValue): (r: Completion<ExerciseFields>)
    ensures r.Throw? <==> e == Undefined || e == Null
  {
    if e == Undefined || e == Null then Throw
    else
      Normal(ExerciseFields(Get(e, "exerciseId").value, Get(e, "name").value, Get(e, "reps").value,
        Get(e, "weights").value, Get(e, "isBodyweight").value))
  }

  /** `exerciseId` and `name` are truthy and `reps` and `weights` are arrays. */
  predicate FieldsPresent(f: ExerciseFields)
  {
    Truthy(f.exerciseId) && Truthy(f.name) && f.reps.Arr? && f.weights.Arr?
  }

  /** `reps.length === weights.length`. */
  predicate SameLength(f: ExerciseFields)
    requires f.reps.Arr? && f.weights.Arr?
  {
    |f.reps.items| == |f.weights.items|
  }

  /** The negation of `typeof rep !== 'number' || rep <= 0 || typeof weight !== 'number' || weight < 0`. */
  predicate SetOk(rep: JsValue, weight: JsValue)
  {
    rep.Num? && rep.n > 0.0 && weight.Num? && weight.n >= 0.0
  }

  predicate SetsOk(reps: seq<JsValue>, weights: seq<JsValue>)
    requires |reps| == |weights|
  {
    forall i :: 0 <= i < |reps| ==> SetOk(reps[i], weights[i])
  }

  function NumOf(v: JsValue): real
  {
    if v.Num? then v.n else 0.0
  }

  /** Σ `reps[i] * weights[i]`. */
  function SetsWeight(reps: seq<JsValue>, weights: seq<JsValue>): real
    requires |reps| == |weights|
  {
    if reps == [] then 0.0
    else SetsWeight(reps[..|reps| - 1], weights[..|weights| - 1]) + NumOf(reps[|reps| - 1]) * NumOf(weights[|weights| - 1])
  }

  /** Sets with positive reps and non-negative weights lift a non-negative weight. */
  lemma {:induction false} SetsWeightNonNegative(reps: seq<JsValue>, weights: seq<JsValue>)
    requires |reps| == |weights| && SetsOk(reps, weights)
    ensures SetsWeight(reps, weights) >= 0.0
  {
    if reps != [] {
      var n := |reps| - 1;
      assert SetsOk(reps[..n], weights[..n]) by {
        forall i | 0 <= i < n ensures SetOk(reps[..n][i], weights[..n][i]) {
          assert SetOk(reps[i], weights[i]);
        }
      }
      SetsWeightNonNegative(reps[..n], weights[..n]);
      assert SetOk(reps[n], weights[n]);
    }
  }

  /** An exercise that passed its checks, and the weight it adds to the total. */
  datatype Checked = Checked(perf: NewPerformance, load: real)

  /** The checks of one exercise: a `TypeError`, a rejection (`None`), or the performance. A
      bodyweight exercise adds nothing to the total. */
  function CheckExercise(e: JsValue): Completion<Option<Checked>>
  {
    match Destructure(e)
    case Throw => Throw
    case Normal(f) =>
      if !FieldsPresent(f) || !SameLength(f) || !SetsOk(f.reps.items, f.weights.items) then Normal(None)
      else
        var perf := NewPerformance(f.exerciseId, f.name, f.reps.items, f.weights.items, Truthy(f.isBodyweight));
        Normal(Some(Checked(perf, if Truthy(f.isBodyweight) then 0.0 else SetsWeight(f.reps.items, f.weights.items))))
  }

  predicate Passes(e: JsValue)
  {
    CheckExercise(e).Normal? && CheckExercise(e).value.Some?
  }

  function PerfOf(e: JsValue): NewPerformance
    requires Passes(e)
  {
    CheckExercise(e).value.value.perf
  }

  function LoadOf(e: JsValue): real
  {
    if Passes(e) then CheckExercise(e).value.value.load else 0.0
  }

  /** The outcome of the loop over `exercises`: the first exercise that does not pass decides
      it, and otherwise every performance is listed and every load added. */
  function ValidateAll(exercises: seq<JsValue>): Completion<Option<Validated>>
  {
    if exercises == [] then Normal(Some(Validated([], 0.0)))
    else
      var before := ValidateAll(exercises[..|exercises| - 1]);
      if before.Throw? || before.value.None? then before
      else
        match CheckExercise(exercises[|exercises| - 1])
        case Throw => Throw
        case Normal(None) => Normal(None)
        case Normal(Some(c)) =>
          Normal(Some(Validated(before.value.value.performances + [c.perf], before.value.value.totalWeight + c.load)))
  }

  /** A passing exercise adds a non-negative weight. */
  lemma {:induction false} LoadNonNegative(e: JsValue)
    ensures LoadOf(e) >= 0.0
  {
    if Passes(e) {
      var f := Destructure(e).value;
      if !Truthy(f.isBodyweight) {
        SetsWeightNonNegative(f.reps.items, f.weights.items);
      }
    }
  }

  /** When every exercise passes, the result is a success whose total is the sum of the loads
      of the non-bodyweight exercises, which is never negative. */
  lemma {:induction false} ValidateAllSucceeds(exercises: seq<JsValue>)
    requires forall i :: 0 <= i < |exercises| ==> Passes(exercises[i])
    ensures ValidateAll(exercises).Normal? && ValidateAll(exercises).value.Some?
    ensures var v := ValidateAll(exercises).value.value;
      && |v.performances| == |exercises|
      && v.totalWeight == SumReal(exercises, LoadOf)
      && v.totalWeight >= 0.0
  {
    if exercises != [] {
      var n := |exercises| - 1;
      var p, x := exercises[..n], exercises[n];
      assert forall i :: 0 <= i < n ==> Passes(p[i]) by {
        forall i | 0 <= i < n ensures Passes(p[i]) {
          assert p[i] == exercises[i];
        }
      }
      ValidateAllSucceeds(p);
      assert Passes(x);
      var v, c := ValidateAll(p).value.value, CheckExercise(x).value.value;
      assert ValidateAll(exercises) == Normal(Some(Validated(v.performances + [c.perf], v.totalWeight + c.load)));
      LoadNonNegative(x);
      assert LoadOf(x) == c.load;
      assert SumReal(exercises, LoadOf) == SumReal(p, LoadOf) + LoadOf(x);
    }
  }

  /** A success lists one performance per exercise, and only when every exercise passes. */
  lemma {:induction false} ValidatedLength(exercises: seq<JsValue>)
    requires ValidateAll(exercises).Normal? && ValidateAll(exercises).value.Some?
    ensures |ValidateAll(exercises).value.value.performances| == |exercises|
  {
    if exercises != [] {
      ValidatedLength(exercises[..|exercises| - 1]);
    }
  }

  /** A success lists the performance of every exercise, in order. */
  lemma {:induction false} ValidatedPerformances(exercises: seq<JsValue>, i: nat)
    requires ValidateAll(exercises).Normal? && ValidateAll(exercises).value.Some?
    requires i < |exercises|
    ensures Passes(exercises[i])
    ensures i < |ValidateAll(exercises).value.value.performances|
    ensures ValidateAll(exercises).value.value.performances[i] == PerfOf(exercises[i])
  {
    var n := |exercises| - 1;
    var p, x := exercises[..n], exercises[n];
    var before := ValidateAll(p);
    assert before.Normal? && before.value.Some?;
    var c := CheckExercise(x).value.value;
    assert ValidateAll(exercises).value.value.performances == before.value.value.performances + [c.perf];
    ValidatedLength(p);
    if i < n {
      ValidatedPerformances(p, i);
      assert p[i] == exercises[i];
    }
  }

  /** The first exercise that fails its checks, or whose destructuring throws, decides the
      outcome: `null` or the `TypeError`. */
  lemma {:induction false} FirstFailureDecides(exercises: seq<JsValue>, i: nat)
    requires i < |exercises| && !Passes(exercises[i])
    requires forall j :: 0 <= j < i ==> Passes(exercises[j])
    ensures ValidateAll(exercises) == if CheckExercise(exercises[i]).Throw? then Throw else Normal(None)
  {
    var n := |exercises| - 1;
    var p := exercises[..n];
    if i == n {
      assert forall j :: 0 <= j < n ==> Passes(p[j]) by {
        forall j | 0 <= j < n ensures Passes(p[j]) {
          assert p[j] == exercises[j];
        }
      }
      ValidateAllSucceeds(p);
    } else {
      assert p[i] == exercises[i];
      assert forall j :: 0 <= j < i ==> Passes(p[j]) by {
        forall j | 0 <= j < i ensures Passes(p[j]) {
          assert p[j] == exercises[j];
        }
      }
      FirstFailureDecides(p, i);
    }
  }

  lemma {:induction false} ValidateStep(exercises: seq<JsValue>, i: nat)
    requires i < |exercises|
    requires ValidateAll(exercises[..i]).Normal? && ValidateAll(exercises[..i]).value.Some?
    requires Passes(exercises[i])
    ensures var v, c := ValidateAll(exercises[..i]).value.value, CheckExercise(exercises[i]).value.value;
      ValidateAll(exercises[..i + 1]) == Normal(Some(Validated(v.performances + [c.perf], v.totalWeight + c.load)))
  {
    var q := exercises[..i + 1];
    assert q[..|q| - 1] == exercises[..i] && q[|q| - 1] == exercises[i];
  }

  lemma {:induction false} SetsWeightStep(reps: seq<JsValue>, weights: seq<JsValue>, j: nat)
    requires |reps| == |weights| && j < |reps|
    ensures SetsWeight(reps[..j + 1], weights[..j + 1]) == SetsWeight(reps[..j], weights[..j]) + NumOf(reps[j]) * NumOf(weights[j])
  {
    var r, w := reps[..j + 1], weights[..j + 1];
    assert r[..|r| - 1] == reps[..j] && w[..|w| - 1] == weights[..j];
  }

  lemma {:induction false} SetsOkStep(reps: seq<JsValue>, weights: seq<JsValue>, j: nat)
    requires |reps| == |weights| && j < |reps|
    ensures SetsOk(reps[..j + 1], weights[..j + 1]) <==> SetsOk(reps[..j], weights[..j]) && SetOk(reps[j], weights[j])
  {
    var r, w := reps[..j + 1], weights[..j + 1];
    assert forall i :: 0 <= i < j ==> r[i] == reps[..j][i] && w[i] == weights[..j][i];
    assert r[j] == reps[j] && w[j] == weights[j];
  }

  /** The loop over the sets of one exercise: whether every set passes, and the weight the
      sets add to the total. */
  method SumSets(reps: seq<JsValue>, weights: seq<JsValue>, isBodyweight: bool) returns (ok: bool, load: real)
    requires |reps| == |weights|
    ensures ok == SetsOk(reps, weights)
    ensures ok ==> load == if isBodyweight then 0.0 else SetsWeight(reps, weights)
  {
    load := 0.0;
    var i := 0;
    while i < |reps|
      invariant i <= |reps|
      invariant SetsOk(reps[..i], weights[..i])
      invariant load == if isBodyweight then 0.0 else SetsWeight(reps[..i], weights[..i])
    {
      var rep, weight := reps[i], weights[i];
      if !rep.Num? || rep.n <= 0.0 || !weight.Num? || weight.n < 0.0 {
        assert !SetOk(reps[i], weights[i]);
        return false, load;
      }
      SetsWeightStep(reps, weights, i);
      SetsOkStep(reps, weights, i);
      if !isBodyweight {
        load := load + rep.n * weight.n;
      }
      i := i + 1;
    }
    assert reps[..i] == reps && weights[..i] == weights;
    return true, load;
  }

  /** One iteration of the loop of `validateExercises`. */
  method CheckOne(e: JsValue) returns (c: Completion<Option<Checked>>)
    ensures c == CheckExercise(e)
  {
    if e == Undefined || e == Null {
      return Throw;
    }
    var f := Destructure(e).value;
    if !Truthy(f.exerciseId) || !Truthy(f.name) || !f.reps.Arr? || !f.weights.Arr? {
      return Normal(None);
    }
    var reps, weights := f.reps.items, f.weights.items;
    if |reps| != |weights| {
      return Normal(None);
    }
    var perf := NewPerformance(f.exerciseId, f.name, reps, weights, Truthy(f.isBodyweight));
    var ok, load := SumSets(reps, weights, Truthy(f.isBodyweight));
    if !ok {
      return Normal(None);
    }
    return Normal(Some(Checked(perf, load)));
  }

  /** `validateExercises(exercises)`: `Normal(None)` is the `null` it returns, `Throw` the
      `TypeError` of destructuring a `null` or `undefined` element. */
  method ValidateExercises(exercises: seq<JsValue>) returns (r: Completion<Option<Validated>>)
    ensures r == ValidateAll(exercises)
  {
    var totalWeight := 0.0;
    var performances: seq<NewPerformance> := [];
    var k := 0;
    while k < |exercises|
      invariant k <= |exercises|
      invariant forall j :: 0 <= j < k ==> Passes(exercises[j])
      invariant ValidateAll(exercises[..k]) == Normal(Some(Validated(performances, totalWeight)))
    {
      var c := CheckOne(exercises[k]);
      if c.Throw? {
        FirstFailureDecides(exercises, k);
        return Throw;
      }
      if c.value.None? {
        FirstFailureDecides(exercises, k);
        return Normal(None);
      }
      ValidateStep(exercises, k);
      totalWeight := totalWeight + c.value.value.load;
      performances := performances + [c.value.value.perf];
      k := k + 1;
    }
    assert exercises[..k] == exercises;
    return Normal(Some(Validated(performances, totalWeight)));
  }

  /** `calculateCaloriesBurned(weight, duration)`: MET 6 for `duration / 60` minutes, or
      `undefined` when the weight is `null` or `0`. */
  function CaloriesBurned(weight: Option<real>, duration: real): (r: Option<real>)
    ensures r.None? <==> weight.None? || weight.value == 0.0
  {
    if weight.None? || weight.value == 0.0 then None
    else
      var minutes := duration / 60.0;
      Some(0.0175 * 6.0 * weight.value * minutes)
  }

  /** The estimate is 0.00175 kcal per kilogram and second, so it is linear in the duration. */
  lemma {:induction false} CaloriesBurnedLinear(weight: real, d1: real, d2: real)
    requires weight != 0.0
    ensures CaloriesBurned(Some(weight), d1).value == 0.00175 * weight * d1
    ensures CaloriesBurned(Some(weight), d1 + d2).value == CaloriesBurned(Some(weight), d1).value + CaloriesBurned(Some(weight), d2).value
  {
  }
}
