/** The routine helpers of `routineService.ts`: building the exercise list of a routine from a
    request (`validateAndBuildExercises`), rewriting a routine (`updateRoutineData`) and
    switching its visibility (`toggleRoutineVisibility`). The `Routine` table is a class whose
    map the methods update; the exercise catalog is a parameter. */
module RoutineService {
  import opened Wrappers
  import opened JsStrings
  import opened JsValues
  import opened ExerciseService

  /** An `ExerciseLog` of a routine. `sets` and `reps` are copied from the request unchanged. */
  datatype ExerciseLog = ExerciseLog(exerciseId: JsValue, name: string, sets: JsValue, reps: JsValue)

  /** A `Routine` row. `description` is what was stored: the request's value on creation, a
      string after an update. */
  datatype Routine = Routine(title: string, description: JsValue, isPublic: bool, ownerId: int, exercises: seq<ExerciseLog>)

  /** The `Routine` table, keyed by id; `nextId` is the id the next insert receives. */
  class RoutineStore {
    var routines: map<int, Routine>
    var nextId: int

    /** Every stored id is positive and below `nextId`. */
    predicate Valid()
      reads this
    {
      0 < nextId && forall id :: id in routines ==> 0 < id < nextId
    }

    constructor()
      ensures Valid() && routines == map[] && nextId == 1
    {
      routines := map[];
      nextId := 1;
    }

    /** `repo.save(newRoutine)` of a new routine: it receives a fresh id. */
    method Insert(r: Routine) returns (id: int)
      requires Valid()
      modifies this
      ensures Valid()
      ensures id == old(nextId) && id !in old(routines)
      ensures routines == old(routines)[id := r]
    {
      id := nextId;
      routines := routines[id := r];
      nextId := nextId + 1;
    }

    /** `repo.remove(routine)`. */
    method Remove(id: int)
      requires Valid()
      modifies this
      ensures Valid()
      ensures routines == old(routines) - {id} && nextId == old(nextId)
    {
      routines := routines - {id};
    }

    /** `updateRoutineData(routine, title, description, exercises)` on the routine with id
        `id`: the three assignments give `UpdatedRoutine` of the routine, which is saved, and
        nothing else changes. */
    method UpdateRoutineData(id: int, title: string, description: Option<string>, exercises: seq<ExerciseLog>)
      requires Valid() && id in routines
      modifies this
      ensures Valid() && nextId == old(nextId)
      ensures routines == old(routines)[id := UpdatedRoutine(old(routines)[id], title, description, exercises)]
    {
      var r := routines[id];
      var u := UpdatedRoutine(r, title, description, exercises);
      Overwrite(id, u);
    }

    /** `repo.save(routine)` of a loaded routine. */
    method Overwrite(id: int, r: Routine)
      requires Valid() && id in routines
      modifies this
      ensures Valid() && nextId == old(nextId)
      ensures routines == old(routines)[id := r]
    {
      routines := routines[id := r];
    }

    /** `toggleRoutineVisibility(userId, routineId, isPublic)`. */
    method ToggleRoutineVisibility(userId: int, routineId: int, isPublic: bool) returns (ok: bool)
      requires Valid()
      modifies this
      ensures Valid() && nextId == old(nextId)
      ensures ok == CanToggle(old(routines), userId, routineId)
      ensures routines == Toggled(old(routines), userId, routineId, isPublic)
    {
      if routineId !in routines || routines[routineId].ownerId != userId {
        return false;
      }
      routines := routines[routineId := routines[routineId].(isPublic := isPublic)];
      return true;
    }
  }

  /** The routine `updateRoutineData` saves: the trimmed title, the trimmed description or `''`
      (`description?.trim() || ''`), and the new exercises; visibility and owner are kept. */
  function UpdatedRoutine(r: Routine, title: string, description: Option<string>, exercises: seq<ExerciseLog>): (u: Routine)
    ensures u.title == Trim(title) && Trim(u.title) == u.title
    ensures u.description.Str? && Trim(u.description.s) == u.description.s
    ensures description.None? ==> u.description == Str("")
    ensures u.exercises == exercises
    ensures u.isPublic == r.isPublic && u.ownerId == r.ownerId
  {
    var d := if description.Some? then Trim(description.value) else "";
    assert Trim(d) == d by {
      if description.Some? { TrimIdempotent(description.value); } else { assert |Trim(d)| <= |d|; }
    }
    assert Trim(Trim(title)) == Trim(title) by { TrimIdempotent(title); }
    r.(title := Trim(title), description := Str(d), exercises := exercises)
  }

  /** Updating twice with the same data is the same as updating once. */
  lemma {:induction false} UpdateIdempotent(r: Routine, title: string, description: Option<string>, exercises: seq<ExerciseLog>)
    ensures var u := UpdatedRoutine(r, title, description, exercises);
      UpdatedRoutine(u, u.title, Some(u.description.s), exercises) == u
  {
  }

  /** The routine exists and belongs to the caller (`routine && routine.owner.id === userId`). */
  predicate CanToggle(routines: map<int, Routine>, userId: int, routineId: int)
  {
    routineId in routines && routines[routineId].ownerId == userId
  }

  /** The table after `toggleRoutineVisibility`: only the caller's own routine changes, and only
      its `isPublic`. */
  function Toggled(routines: map<int, Routine>, userId: int, routineId: int, isPublic: bool): (m: map<int, Routine>)
    ensures m.Keys == routines.Keys
    ensures forall id :: id in m && id != routineId ==> m[id] == routines[id]
    ensures !CanToggle(routines, userId, routineId) ==> m == routines
    ensures CanToggle(routines, userId, routineId) ==>
      m[routineId].isPublic == isPublic && m[routineId] == routines[routineId].(isPublic := isPublic)
  {
    if CanToggle(routines, userId, routineId) then routines[routineId := routines[routineId].(isPublic := isPublic)]
    else routines
  }

  /** Setting the visibility twice is the same as setting it once, and it is still allowed. */
  lemma {:induction false} ToggleIdempotent(routines: map<int, Routine>, userId: int, routineId: int, isPublic: bool)
    ensures CanToggle(Toggled(routines, userId, routineId, isPublic), userId, routineId) == CanToggle(routines, userId, routineId)
    ensures var m := Toggled(routines, userId, routineId, isPublic);
      Toggled(m, userId, routineId, isPublic) == m
  {
    var m := Toggled(routines, userId, routineId, isPublic);
    if CanToggle(routines, userId, routineId) {
      assert m[routineId].(isPublic := isPublic) == m[routineId];
      assert m[routineId := m[routineId]] == m;
    }
  }

  /** `getExerciseById(id)`: `e.id === id` only holds for a string equal to a catalog id. */
  function Lookup(catalog: seq<Exercise>, id: JsValue): (r: Option<Exercise>)
    ensures r.Some? ==> id.Str? && r.value.id == id.s && r.value in catalog
    ensures id.Str? ==> r == FindById(catalog, id.s)
  {
    if id.Str? then FindById(catalog, id.s) else None
  }

  /** One step of `validateAndBuildExercises`: a `TypeError` when the element cannot be
      destructured or when `sets <= 0 || reps <= 0` throws, `null` (`None`) when it is
      rejected, and otherwise its log. */
  function BuildLog(e: JsValue, catalog: seq<Exercise>): (r: Completion<Option<ExerciseLog>>)
    ensures r.Throw? <==>
      || e == Undefined || e == Null
      || (Truthy(Get(e, "exerciseId").value) && SignTestThrows(Get(e, "sets").value, Get(e, "reps").value))
    ensures r.Normal? && r.value.Some? ==> var log := r.value.value;
      && log == ExerciseLog(Get(e, "exerciseId").value, log.name, Get(e, "sets").value, Get(e, "reps").value)
      && Truthy(log.exerciseId) && !AtMostZero(log.sets) && !AtMostZero(log.reps)
      && Lookup(catalog, log.exerciseId).Some? && log.name == Lookup(catalog, log.exerciseId).value.name
      && log.name != ""
  {
    if e == Undefined || e == Null then Throw
    else
      var id, sets, reps := Get(e, "exerciseId").value, Get(e, "sets").value, Get(e, "reps").value;
      if !Truthy(id) then Normal(None)
      else if SignTestThrows(sets, reps) then Throw
      else if AtMostZero(sets) || AtMostZero(reps) then Normal(None)
      else
        match Lookup(catalog, id)
        case None => Normal(None)
        case Some(x) => if x.name == "" then Normal(None) else Normal(Some(ExerciseLog(id, x.name, sets, reps)))
  }

  /** An exercise with an id from the catalog and no `sets` or `reps` is accepted, because
      `undefined <= 0` is false; its log carries `undefined` for both. */
  lemma {:induction false} MissingSetsAccepted(id: string, catalog: seq<Exercise>)
    requires id != [] && FindById(catalog, id).Some? && FindById(catalog, id).value.name != ""
    ensures BuildLog(Obj(map["exerciseId" := Str(id)]), catalog)
      == Normal(Some(ExerciseLog(Str(id), FindById(catalog, id).value.name, Undefined, Undefined)))
  {
    UndefinedIsNotAtMostZero();
  }

  /** A `sets` value that compares `<= 0` makes the exercise rejected. */
  lemma {:induction false} NonPositiveSetsNotBuilt(id: string, sets: JsValue, catalog: seq<Exercise>)
    requires AtMostZero(sets)
    ensures BuildLog(Obj(map["exerciseId" := Str(id), "sets" := sets, "reps" := Num(3.0)]), catalog) == Normal(None)
  {
    AtMostZeroConverts(sets);
  }

  /** A `sets` object with its own `toString` makes `sets <= 0` throw. */
  lemma {:induction false} ObjectSetsThrow(id: string, catalog: seq<Exercise>)
    requires id != []
    ensures BuildLog(Obj(map["exerciseId" := Str(id), "sets" := Obj(map["toString" := Num(1.0)]), "reps" := Num(3.0)]), catalog) == Throw
  {
  }

  /** `sets: '-1e1'` is read as `-10`, so the exercise is rejected. */
  lemma {:induction false} ExponentSetsNotBuilt(id: string, catalog: seq<Exercise>)
    ensures BuildLog(Obj(map["exerciseId" := Str(id), "sets" := Str("-1e1"), "reps" := Num(3.0)]), catalog) == Normal(None)
  {
    assert AtMostZero(Str("-1e1")) by {
      NegativeExponentNumeral();
    }
    NonPositiveSetsNotBuilt(id, Str("-1e1"), catalog);
  }

  /** The result of each element of `exercises`. */
  function BuildLogs(exercises: seq<JsValue>, catalog: seq<Exercise>): (vs: seq<Completion<Option<ExerciseLog>>>)
    ensures |vs| == |exercises|
    ensures forall i :: 0 <= i < |exercises| ==> vs[i] == BuildLog(exercises[i], catalog)
  {
    seq(|exercises|, i requires 0 <= i < |exercises| => BuildLog(exercises[i], catalog))
  }

  predicate IsBuilt(v: Completion<Option<ExerciseLog>>)
  {
    v.Normal? && v.value.Some?
  }

  /** The loop of `validateAndBuildExercises` over the element results: the first `TypeError`
      or `null` ends it, otherwise every log is pushed. */
  function Collect(vs: seq<Completion<Option<ExerciseLog>>>): Completion<Option<seq<ExerciseLog>>>
  {
    if vs == [] then Normal(Some([]))
    else
      var before := Collect(vs[..|vs| - 1]);
      if before.Throw? || before.value.None? then before
      else
        match vs[|vs| - 1]
        case Throw => Throw
        case Normal(None) => Normal(None)
        case Normal(Some(log)) => Normal(Some(before.value.value + [log]))
  }

  /** `validateAndBuildExercises(exercises)` against the catalog. */
  function ValidateAndBuild(exercises: seq<JsValue>, catalog: seq<Exercise>): Completion<Option<seq<ExerciseLog>>>
  {
    Collect(BuildLogs(exercises, catalog))
  }

  /** When every element is accepted the result is the list of their logs, in order; an empty
      request gives `[]`. */
  lemma {:induction false} CollectSucceeds(vs: seq<Completion<Option<ExerciseLog>>>)
    requires forall i :: 0 <= i < |vs| ==> IsBuilt(vs[i])
    ensures Collect(vs).Normal? && Collect(vs).value.Some? && |Collect(vs).value.value| == |vs|
      && forall i :: 0 <= i < |vs| ==> IsBuilt(vs[i]) && Collect(vs).value.value[i] == vs[i].value.value
  {
    if vs != [] {
      var n := |vs| - 1;
      var p := vs[..n];
      assert forall i :: 0 <= i < n ==> IsBuilt(p[i]) by {
        forall i | 0 <= i < n ensures IsBuilt(p[i]) {
          assert p[i] == vs[i];
        }
      }
      CollectSucceeds(p);
      assert IsBuilt(vs[n]);
      var logs := Collect(p).value.value;
      assert Collect(vs).value.value == logs + [vs[n].value.value];
      forall i | 0 <= i < |vs| ensures Collect(vs).value.value[i] == vs[i].value.value {
        if i < n {
          assert p[i] == vs[i];
        }
      }
    }
  }

  lemma {:induction false} CollectedLength(vs: seq<Completion<Option<ExerciseLog>>>)
    requires Collect(vs).Normal? && Collect(vs).value.Some?
    ensures |Collect(vs).value.value| == |vs|
  {
    if vs != [] {
      CollectedLength(vs[..|vs| - 1]);
    }
  }

  /** A list is returned only when every element is accepted, and it holds their logs in
      order. */
  lemma {:induction false} CollectedOnlyIfBuilt(vs: seq<Completion<Option<ExerciseLog>>>, i: nat)
    requires Collect(vs).Normal? && Collect(vs).value.Some?
    requires i < |vs|
    ensures IsBuilt(vs[i])
    ensures i < |Collect(vs).value.value| && Collect(vs).value.value[i] == vs[i].value.value
  {
    var n := |vs| - 1;
    var p := vs[..n];
    var before := Collect(p);
    assert before.Normal? && before.value.Some?;
    assert Collect(vs).value.value == before.value.value + [vs[n].value.value];
    CollectedLength(p);
    if i < n {
      CollectedOnlyIfBuilt(p, i);
      assert p[i] == vs[i];
    }
  }

  /** The first element that is not accepted decides: `null`, or the `TypeError`. */
  lemma {:induction false} FirstRejectedDecides(vs: seq<Completion<Option<ExerciseLog>>>, i: nat)
    requires i < |vs| && !IsBuilt(vs[i])
    requires forall j :: 0 <= j < i ==> IsBuilt(vs[j])
    ensures Collect(vs) == if vs[i].Throw? then Throw else Normal(None)
  {
    var n := |vs| - 1;
    var p := vs[..n];
    assert forall j :: 0 <= j < i ==> IsBuilt(p[j]) by {
      forall j | 0 <= j < i ensures IsBuilt(p[j]) {
        assert p[j] == vs[j];
      }
    }
    if i == n {
      CollectSucceeds(p);
    } else {
      assert p[i] == vs[i];
      FirstRejectedDecides(p, i);
    }
  }

  /** A built list holds, for every requested exercise in order, its id, `sets` and `reps` and
      the catalog's name for it. */
  lemma {:induction false} BuiltLogs(exercises: seq<JsValue>, catalog: seq<Exercise>, i: nat)
    requires ValidateAndBuild(exercises, catalog).Normal? && ValidateAndBuild(exercises, catalog).value.Some?
    requires i < |exercises|
    ensures var logs, e := ValidateAndBuild(exercises, catalog).value.value, exercises[i];
      && |logs| == |exercises|
      && Get(e, "exerciseId") == Normal(logs[i].exerciseId)
      && Get(e, "sets") == Normal(logs[i].sets) && Get(e, "reps") == Normal(logs[i].reps)
      && Lookup(catalog, logs[i].exerciseId).Some? && logs[i].name == Lookup(catalog, logs[i].exerciseId).value.name
  {
    var vs := BuildLogs(exercises, catalog);
    CollectedLength(vs);
    CollectedOnlyIfBuilt(vs, i);
  }

  lemma {:induction false} CollectStep(vs: seq<Completion<Option<ExerciseLog>>>, i: nat)
    requires i < |vs|
    requires Collect(vs[..i]).Normal? && Collect(vs[..i]).value.Some?
    requires IsBuilt(vs[i])
    ensures Collect(vs[..i + 1]) == Normal(Some(Collect(vs[..i]).value.value + [vs[i].value.value]))
  {
    var q := vs[..i + 1];
    assert q[..|q| - 1] == vs[..i] && q[|q| - 1] == vs[i];
  }

  /** One iteration of the loop of `validateAndBuildExercises`. */
  method BuildOne(e: JsValue, catalog: seq<Exercise>) returns (r: Completion<Option<ExerciseLog>>)
    ensures r == BuildLog(e, catalog)
  {
    if e == Undefined || e == Null {
      return Throw;
    }
    var exerciseId, sets, reps := Get(e, "exerciseId").value, Get(e, "sets").value, Get(e, "reps").value;
    if !Truthy(exerciseId) {
      return Normal(None);
    }
    if PrimitiveThrows(sets) {
      return Throw;
    }
    if AtMostZero(sets) {
      return Normal(None);
    }
    if PrimitiveThrows(reps) {
      return Throw;
    }
    if AtMostZero(reps) {
      return Normal(None);
    }
    var apiExercise := Lookup(catalog, exerciseId);
    if apiExercise.None? || apiExercise.value.name == "" {
      return Normal(None);
    }
    return Normal(Some(ExerciseLog(exerciseId, apiExercise.value.name, sets, reps)));
  }

  /** `validateAndBuildExercises(exercises)`. */
  method ValidateAndBuildExercises(exercises: seq<JsValue>, catalog: seq<Exercise>) returns (r: Completion<Option<seq<ExerciseLog>>>)
    ensures r == ValidateAndBuild(exercises, catalog)
  {
    var validated: seq<ExerciseLog> := [];
    ghost var vs := BuildLogs(exercises, catalog);
    var k := 0;
    while k < |exercises|
      invariant k <= |exercises|
      invariant forall j :: 0 <= j < k ==> IsBuilt(vs[j])
      invariant Collect(vs[..k]) == Normal(Some(validated))
    {
      var v := BuildOne(exercises[k], catalog);
      assert vs[k] == v;
      if !IsBuilt(v) {
        FirstRejectedDecides(vs, k);
        return if v.Throw? then Throw else Normal(None);
      }
      CollectStep(vs, k);
      assert forall j :: 0 <= j < k + 1 ==> IsBuilt(vs[j]) by {
        forall j | 0 <= j < k + 1 ensures IsBuilt(vs[j]) {
          if j == k { assert vs[j] == v; }
        }
      }
      validated := validated + [v.value.value];
      k := k + 1;
    }
    assert vs[..k] == vs;
    return Normal(Some(validated));
  }
}
