/** `createRoutine`, `updateRoutine` and `deleteRoutine` of `routineController.ts`: the order
    of their checks, the exercise loop they share, and the one change each makes to the
    `Routine` table. The request body is the parsed JSON object, the `:id` route parameter a
    string, and the exercise catalog a parameter. */
module RoutineController {
  import opened Wrappers
  import opened JsStrings
  import opened JsValues
  import opened ExerciseService
  import opened RoutineService

  /** A response message: a fixed text, or a template literal `` `${prefix}${id}` `` around a
      request value. */
  datatype Message = Text(text: string) | WithId(prefix: string, id: JsValue)

  /** The status code and `message` of a response. */
  datatype Response = Response(status: nat, message: Message)

  /** A property of the parsed JSON body, `undefined` when absent. */
  function Field(body: map<string, JsValue>, name: string): JsValue
  {
    if name in body then body[name] else Undefined
  }

  /** Which handler runs the exercise loop: `updateRoutine` also rejects a catalog entry without
      a name, and words its message differently. */
  datatype Handler = Create | Update

  /** One element of `exercises`: rejected with a message, or accepted with its log. */
  datatype Check = Reject(message: Message) | Accept(log: ExerciseLog)

  /** The checks of one exercise: the three truthiness tests (so `0` is rejected), `sets <= 0 ||
      reps <= 0` compared as numbers, and the catalog lookup. The name stored is the catalog's.
      A `TypeError` comes from destructuring, from a comparison whose conversion throws, or
      from rendering the id into the not-found message. */
  function CheckExercise(e: JsValue, catalog: seq<Exercise>, h: Handler): (r: Completion<Check>)
    ensures e == Undefined || e == Null ==> r.Throw?
    ensures r.Normal? && r.value.Accept? ==> var log := r.value.log;
      && Get(e, "exerciseId") == Normal(log.exerciseId) && Get(e, "sets") == Normal(log.sets) && Get(e, "reps") == Normal(log.reps)
      && Truthy(log.exerciseId) && Truthy(log.sets) && Truthy(log.reps)
      && !AtMostZero(log.sets) && !AtMostZero(log.reps)
      && Lookup(catalog, log.exerciseId).Some? && log.name == Lookup(catalog, log.exerciseId).value.name
      && (h == Update ==> log.name != "")
  {
    if e == Undefined || e == Null then Throw
    else
      var id, sets, reps := Get(e, "exerciseId").value, Get(e, "sets").value, Get(e, "reps").value;
      if !Truthy(id) || !Truthy(sets) || !Truthy(reps) then Normal(Reject(Text("Datos incompletos en algún ejercicio")))
      else if SignTestThrows(sets, reps) then Throw
      else if AtMostZero(sets) || AtMostZero(reps) then Normal(Reject(Text("Sets y repeticiones deben ser mayores que 0")))
      else
        match Lookup(catalog, id)
        case None =>
          if PrimitiveThrows(id) then Throw
          else Normal(Reject(WithId(if h == Create then "Ejercicio no encontrado: " else "Ejercicio no válido: ", id)))
        case Some(x) =>
          if h == Update && x.name == "" then Normal(Reject(WithId("Ejercicio no válido: ", id)))
          else Normal(Accept(ExerciseLog(id, x.name, sets, reps)))
  }

  /** When the checks of one exercise throw: on an `undefined` or `null` element, and, for an
      element whose three fields are truthy, when the sign test throws or, past it, the
      not-found message cannot render the id (an id that cannot be rendered is never a catalog
      id). */
  lemma {:induction false} CheckExerciseThrows(e: JsValue, catalog: seq<Exercise>, h: Handler)
    requires e != Undefined && e != Null
    ensures var id, sets, reps := Get(e, "exerciseId").value, Get(e, "sets").value, Get(e, "reps").value;
      CheckExercise(e, catalog, h).Throw? <==>
        && Truthy(id) && Truthy(sets) && Truthy(reps)
        && (SignTestThrows(sets, reps) || (!AtMostZero(sets) && !AtMostZero(reps) && PrimitiveThrows(id)))
  {
  }

  /** A count of zero fails the truthiness test before the sign test. */
  lemma {:induction false} ZeroSetsIncomplete(id: string, reps: JsValue, catalog: seq<Exercise>, h: Handler)
    requires id != []
    ensures CheckExercise(Obj(map["exerciseId" := Str(id), "sets" := Num(0.0), "reps" := reps]), catalog, h)
      == Normal(Reject(Text("Datos incompletos en algún ejercicio")))
  {
  }

  /** A truthy `sets` value that compares `<= 0` fails the sign test. */
  lemma {:induction false} NonPositiveSetsRejected(id: string, sets: JsValue, catalog: seq<Exercise>, h: Handler)
    requires id != [] && Truthy(sets) && AtMostZero(sets)
    ensures CheckExercise(Obj(map["exerciseId" := Str(id), "sets" := sets, "reps" := Num(3.0)]), catalog, h)
      == Normal(Reject(Text("Sets y repeticiones deben ser mayores que 0")))
  {
    var e := Obj(map["exerciseId" := Str(id), "sets" := sets, "reps" := Num(3.0)]);
    assert Get(e, "exerciseId").value == Str(id) && Get(e, "sets").value == sets && Get(e, "reps").value == Num(3.0);
    AtMostZeroConverts(sets);
    SignTestRejects(e, catalog, h);
  }

  lemma {:induction false} SignTestRejects(e: JsValue, catalog: seq<Exercise>, h: Handler)
    requires e.Obj?
    requires var id, sets, reps := Get(e, "exerciseId").value, Get(e, "sets").value, Get(e, "reps").value;
      Truthy(id) && Truthy(sets) && Truthy(reps) && !PrimitiveThrows(sets) && AtMostZero(sets)
    ensures CheckExercise(e, catalog, h) == Normal(Reject(Text("Sets y repeticiones deben ser mayores que 0")))
  {
  }

  /** A `sets` object with its own `toString` makes `sets <= 0` throw, whatever `reps` is. */
  lemma {:induction false} ObjectSetsThrow(id: string, reps: JsValue, catalog: seq<Exercise>, h: Handler)
    requires id != [] && Truthy(reps)
    ensures CheckExercise(Obj(map["exerciseId" := Str(id), "sets" := Obj(map["toString" := Num(1.0)]), "reps" := reps]), catalog, h)
      == Throw
  {
  }

  /** An id object with its own `toString` passes every test up to the lookup, finds nothing,
      and makes the not-found message throw. */
  lemma {:induction false} ObjectIdThrows(catalog: seq<Exercise>, h: Handler)
    ensures CheckExercise(Obj(map["exerciseId" := Obj(map["toString" := Num(1.0)]), "sets" := Num(3.0), "reps" := Num(3.0)]), catalog, h)
      == Throw
  {
  }

  /** A count written with an exponent is read as the number it denotes: `sets: '-1e1'` is
      `-10`, so the sign test rejects it. */
  lemma {:induction false} ExponentSetsRejected(id: string, catalog: seq<Exercise>, h: Handler)
    requires id != []
    ensures CheckExercise(Obj(map["exerciseId" := Str(id), "sets" := Str("-1e1"), "reps" := Num(3.0)]), catalog, h)
      == Normal(Reject(Text("Sets y repeticiones deben ser mayores que 0")))
  {
    assert AtMostZero(Str("-1e1")) by {
      NegativeExponentNumeral();
    }
    NonPositiveSetsRejected(id, Str("-1e1"), catalog, h);
  }

  predicate IsAccept(v: Completion<Check>)
  {
    v.Normal? && v.value.Accept?
  }

  /** The verdict on each element of `exercises`. */
  function Checks(exercises: seq<JsValue>, catalog: seq<Exercise>, h: Handler): (vs: seq<Completion<Check>>)
    ensures |vs| == |exercises|
    ensures forall i :: 0 <= i < |exercises| ==> vs[i] == CheckExercise(exercises[i], catalog, h)
  {
    seq(|exercises|, i requires 0 <= i < |exercises| => CheckExercise(exercises[i], catalog, h))
  }

  /** The outcome of the exercise loop. */
  datatype Collected = Rejected(message: Message) | Collected(logs: seq<ExerciseLog>)

  /** The loop over the verdicts: the first rejection or `TypeError` ends it, otherwise every
      log is pushed onto `validatedExercises`. */
  function Collect(vs: seq<Completion<Check>>): Completion<Collected>
  {
    if vs == [] then Normal(Collected([]))
    else
      var before := Collect(vs[..|vs| - 1]);
      if before.Throw? || before.value.Rejected? then before
      else
        match vs[|vs| - 1]
        case Throw => Throw
        case Normal(Reject(m)) => Normal(Rejected(m))
        case Normal(Accept(log)) => Normal(Collected(before.value.logs + [log]))
  }

  function CollectExercises(exercises: seq<JsValue>, catalog: seq<Exercise>, h: Handler): Completion<Collected>
  {
    Collect(Checks(exercises, catalog, h))
  }

  lemma {:induction false} CollectSucceeds(vs: seq<Completion<Check>>)
    requires forall i :: 0 <= i < |vs| ==> IsAccept(vs[i])
    ensures Collect(vs).Normal? && Collect(vs).value.Collected?
  {
    if vs != [] {
      var n := |vs| - 1;
      var p := vs[..n];
      assert forall i :: 0 <= i < n ==> IsAccept(p[i]) by {
        forall i | 0 <= i < n ensures IsAccept(p[i]) {
          assert p[i] == vs[i];
        }
      }
      CollectSucceeds(p);
      assert IsAccept(vs[n]);
    }
  }

  lemma {:induction false} CollectedLength(vs: seq<Completion<Check>>)
    requires Collect(vs).Normal? && Collect(vs).value.Collected?
    ensures |Collect(vs).value.logs| == |vs|
  {
    if vs != [] {
      CollectedLength(vs[..|vs| - 1]);
    }
  }

  /** The loop finishes only when every verdict is an acceptance, and its list holds their logs
      in order. */
  lemma {:induction false} CollectedOnlyIfAccepted(vs: seq<Completion<Check>>, i: nat)
    requires Collect(vs).Normal? && Collect(vs).value.Collected?
    requires i < |vs|
    ensures IsAccept(vs[i])
    ensures i < |Collect(vs).value.logs| && Collect(vs).value.logs[i] == vs[i].value.log
  {
    var n := |vs| - 1;
    var p := vs[..n];
    var before := Collect(p);
    assert before.Normal? && before.value.Collected?;
    assert Collect(vs).value.logs == before.value.logs + [vs[n].value.log];
    CollectedLength(p);
    if i < n {
      CollectedOnlyIfAccepted(p, i);
      assert p[i] == vs[i];
    }
  }

  /** The first verdict that is not an acceptance decides the outcome. */
  lemma {:induction false} FirstRejectDecides(vs: seq<Completion<Check>>, i: nat)
    requires i < |vs| && !IsAccept(vs[i])
    requires forall j :: 0 <= j < i ==> IsAccept(vs[j])
    ensures Collect(vs) == match vs[i] case Throw => Throw case Normal(v) => Normal(Rejected(v.message))
  {
    var n := |vs| - 1;
    var p := vs[..n];
    assert forall j :: 0 <= j < i ==> IsAccept(p[j]) by {
      forall j | 0 <= j < i ensures IsAccept(p[j]) {
        assert p[j] == vs[j];
      }
    }
    if i == n {
      CollectSucceeds(p);
    } else {
      assert p[i] == vs[i];
      FirstRejectDecides(p, i);
    }
  }

  lemma {:induction false} CollectStep(vs: seq<Completion<Check>>, i: nat)
    requires i < |vs|
    requires Collect(vs[..i]).Normal? && Collect(vs[..i]).value.Collected?
    requires IsAccept(vs[i])
    ensures Collect(vs[..i + 1]) == Normal(Collected(Collect(vs[..i]).value.logs + [vs[i].value.log]))
  {
    var q := vs[..i + 1];
    assert q[..|q| - 1] == vs[..i] && q[|q| - 1] == vs[i];
  }

  /** Every stored log is the checked log of the requested exercise at the same position. */
  lemma {:induction false} StoredLogs(exercises: seq<JsValue>, catalog: seq<Exercise>, h: Handler, i: nat)
    requires CollectExercises(exercises, catalog, h).Normal? && CollectExercises(exercises, catalog, h).value.Collected?
    requires i < |exercises|
    ensures |CollectExercises(exercises, catalog, h).value.logs| == |exercises|
    ensures CheckExercise(exercises[i], catalog, h) == Normal(Accept(CollectExercises(exercises, catalog, h).value.logs[i]))
  {
    var vs := Checks(exercises, catalog, h);
    CollectedLength(vs);
    CollectedOnlyIfAccepted(vs, i);
  }

  /** `title.trim().length` lies in 3..50, in UTF-16 code units. */
  predicate TitleLengthOk(title: string)
  {
    3 <= Utf16Length(Trim(title)) <= 50
  }

  /** `description && description.length > 300`. */
  predicate DescriptionTooLong(description: JsValue)
  {
    Truthy(description) && LengthExceeds(description, 300)
  }

  /** `description && description.length > 300` throws: a description object whose own
      `length` cannot be converted. */
  predicate DescriptionTestThrows(description: JsValue)
  {
    Truthy(description) && LengthThrows(description)
  }

  /** The answer `createRoutine` or `updateRoutine` gives when its `try` block throws. */
  function InternalError(h: Handler): Message
  {
    if h == Create then Text("Error interno del servidor") else Text("Error al actualizar rutina")
  }

  /** The outcome of the checks both handlers make once they hold a string title and an array of
      exercises: a `TypeError`, a 400 answer, or the list of logs. */
  datatype BodyCheck = Crash | Invalid(message: Message) | Valid(logs: seq<ExerciseLog>)

  /** The title length, the description length, then the exercise loop. */
  function CheckBody(title: string, description: JsValue, items: seq<JsValue>, catalog: seq<Exercise>, h: Handler): (r: BodyCheck)
    ensures r.Valid? ==>
      && TitleLengthOk(title) && !DescriptionTestThrows(description) && !DescriptionTooLong(description)
      && CollectExercises(items, catalog, h) == Normal(Collected(r.logs))
    ensures r.Crash? <==>
      && TitleLengthOk(title)
      && (DescriptionTestThrows(description) || (!DescriptionTooLong(description) && CollectExercises(items, catalog, h).Throw?))
  {
    if !TitleLengthOk(title) then Invalid(Text("El título debe tener entre 3 y 50 caracteres"))
    else if DescriptionTestThrows(description) then Crash
    else if DescriptionTooLong(description) then Invalid(Text("La descripción no puede superar los 300 caracteres"))
    else
      match CollectExercises(items, catalog, h)
      case Throw => Crash
      case Normal(Rejected(m)) => Invalid(m)
      case Normal(Collected(logs)) => Valid(logs)
  }

  /** What a handler answers and the change it makes: a new routine, a rewritten one, or a
      removal. */
  datatype Change = NoChange | Created(routine: Routine) | Updated(id: int, routine: Routine) | Removed(id: int)
  datatype Outcome = Outcome(response: Response, change: Change)

  /** `createRoutine`. The title is stored as sent, untrimmed, and the description as sent. A
      truthy title that is not a string has no `trim` and ends in the 500 answer. */
  function CreateOutcome(userId: int, body: map<string, JsValue>, catalog: seq<Exercise>): (o: Outcome)
    ensures o.change.NoChange? || o.change.Created?
    ensures o.change.Created? <==> o.response.status == 201
    ensures o.change.Created? ==>
      && Field(body, "exercises").Arr? && |Field(body, "exercises").items| > 0
      && Field(body, "title").Str? && TitleLengthOk(Field(body, "title").s)
      && !DescriptionTestThrows(Field(body, "description")) && !DescriptionTooLong(Field(body, "description"))
      && o.change.routine == Routine(Field(body, "title").s, Field(body, "description"), false, userId, o.change.routine.exercises)
      && CollectExercises(Field(body, "exercises").items, catalog, Create) == Normal(Collected(o.change.routine.exercises))
  {
    var title, description, exercises := Field(body, "title"), Field(body, "description"), Field(body, "exercises");
    if !Truthy(title) || !exercises.Arr? || |exercises.items| == 0 then Outcome(Response(400, Text("Faltan datos requeridos")), NoChange)
    else if !title.Str? then Outcome(Response(500, InternalError(Create)), NoChange)
    else
      match CheckBody(title.s, description, exercises.items, catalog, Create)
      case Crash => Outcome(Response(500, InternalError(Create)), NoChange)
      case Invalid(m) => Outcome(Response(400, m), NoChange)
      case Valid(logs) =>
        Outcome(Response(201, Text("Rutina creada correctamente")), Created(Routine(title.s, description, false, userId, logs)))
  }

  /** `description?.trim() || ''`: `undefined` and `null` give `''`; any other value that is not
      a string has no `trim` and throws. */
  function TrimmedDescription(description: JsValue): (r: Completion<Option<string>>)
    ensures r.Throw? <==> description != Undefined && description != Null && !description.Str?
    ensures r.Normal? && r.value.Some? ==> description == Str(r.value.value)
  {
    if description == Undefined || description == Null then Normal(None)
    else if description.Str? then Normal(Some(description.s))
    else Throw
  }

  /** The part of `updateRoutine` after the ownership check, on the loaded routine `r`. */
  function UpdateBody(body: map<string, JsValue>, catalog: seq<Exercise>, id: int, r: Routine): (o: Outcome)
    ensures o.change.NoChange? || (o.change.Updated? && o.change.id == id)
    ensures o.change.Updated? <==> o.response.status == 200
    ensures o.change.Updated? ==>
      && Field(body, "title").Str? && Field(body, "exercises").Arr?
      && TitleLengthOk(Field(body, "title").s)
      && !DescriptionTestThrows(Field(body, "description")) && !DescriptionTooLong(Field(body, "description"))
      && CollectExercises(Field(body, "exercises").items, catalog, Update) == Normal(Collected(o.change.routine.exercises))
      && TrimmedDescription(Field(body, "description")).Normal?
      && o.change.routine == UpdatedRoutine(r, Field(body, "title").s, TrimmedDescription(Field(body, "description")).value, o.change.routine.exercises)
  {
    var title, description, exercises := Field(body, "title"), Field(body, "description"), Field(body, "exercises");
    if !Truthy(title) || !title.Str? || !exercises.Arr? then Outcome(Response(400, Text("Datos inválidos")), NoChange)
    else
      match CheckBody(title.s, description, exercises.items, catalog, Update)
      case Crash => Outcome(Response(500, InternalError(Update)), NoChange)
      case Invalid(m) => Outcome(Response(400, m), NoChange)
      case Valid(logs) =>
        match TrimmedDescription(description)
        case Throw => Outcome(Response(500, InternalError(Update)), NoChange)
        case Normal(d) =>
          Outcome(Response(200, Text("Rutina actualizada correctamente")), Updated(id, UpdatedRoutine(r, title.s, d, logs)))
  }

  /** `updateRoutine`: the id, the routine, the owner, then the body. The routine keeps its
      visibility and owner and gets the trimmed title and description and the new list. */
  function UpdateOutcome(userId: int, idParam: string, body: map<string, JsValue>, catalog: seq<Exercise>,
    routines: map<int, Routine>): (o: Outcome)
    ensures o.change.NoChange? || o.change.Updated?
    ensures o.change.Updated? <==> o.response.status == 200
    ensures o.change.Updated? ==>
      && ParseInt(idParam) == Some(o.change.id) && CanToggle(routines, userId, o.change.id)
      && o == UpdateBody(body, catalog, o.change.id, routines[o.change.id])
  {
    match ParseInt(idParam)
    case None => Outcome(Response(400, Text("ID de rutina no válido")), NoChange)
    case Some(id) =>
      if id !in routines then Outcome(Response(404, Text("Rutina no encontrada")), NoChange)
      else if routines[id].ownerId != userId then Outcome(Response(403, Text("No tienes permiso para editar esta rutina")), NoChange)
      else
        UpdateBody(body, catalog, id, routines[id])
  }

  /** An update stores the trimmed title, whose length the check bounded, and keeps the
      routine's visibility and owner. */
  lemma {:induction false} UpdatedTitle(userId: int, idParam: string, body: map<string, JsValue>, catalog: seq<Exercise>,
    routines: map<int, Routine>)
    requires UpdateOutcome(userId, idParam, body, catalog, routines).change.Updated?
    ensures var c := UpdateOutcome(userId, idParam, body, catalog, routines).change;
      && Field(body, "title").Str?
      && c.routine.title == Trim(Field(body, "title").s) && Trim(c.routine.title) == c.routine.title
      && 3 <= Utf16Length(c.routine.title) <= 50
      && c.routine.isPublic == routines[c.id].isPublic && c.routine.ownerId == userId
  {
  }

  /** `deleteRoutine`: the id, the routine, the owner, then the removal. */
  function DeleteOutcome(userId: int, idParam: string, routines: map<int, Routine>): (o: Outcome)
    ensures o.change.NoChange? || o.change.Removed?
    ensures o.change.Removed? <==> o.response.status == 200
    ensures o.change.Removed? <==> ParseInt(idParam).Some? && CanToggle(routines, userId, ParseInt(idParam).value)
    ensures o.change.Removed? ==> o.change.id == ParseInt(idParam).value
  {
    match ParseInt(idParam)
    case None => Outcome(Response(400, Text("ID de rutina no válido")), NoChange)
    case Some(id) =>
      if id !in routines then Outcome(Response(404, Text("Rutina no encontrada")), NoChange)
      else if routines[id].ownerId != userId then Outcome(Response(403, Text("No tienes permiso para eliminar esta rutina")), NoChange)
      else Outcome(Response(200, Text("Rutina eliminada correctamente")), Removed(id))
  }

  /** `updateRoutine` settles the id, the existence and the ownership before it reads the body:
      when one of them fails, the answer does not depend on the body or the catalog. */
  lemma {:induction false} UpdateChecksOwnershipFirst(userId: int, idParam: string, body1: map<string, JsValue>,
    body2: map<string, JsValue>, catalog1: seq<Exercise>, catalog2: seq<Exercise>, routines: map<int, Routine>)
    requires ParseInt(idParam).None? || !CanToggle(routines, userId, ParseInt(idParam).value)
    ensures UpdateOutcome(userId, idParam, body1, catalog1, routines) == UpdateOutcome(userId, idParam, body2, catalog2, routines)
    ensures UpdateOutcome(userId, idParam, body1, catalog1, routines).response.status in {400, 403, 404}
  {
  }

  /** `createRoutine` rejects an empty `exercises` array before any other check. */
  lemma {:induction false} CreateRejectsNoExercises(userId: int, body: map<string, JsValue>, catalog: seq<Exercise>)
    requires Field(body, "exercises") == Arr([])
    ensures CreateOutcome(userId, body, catalog).response == Response(400, Text("Faltan datos requeridos"))
  {
  }

  /** A first exercise whose `sets` object has its own `toString` ends `createRoutine` in the
      500 answer, whatever follows it: `sets <= 0` throws inside the `try` block. */
  lemma {:induction false} ObjectSetsCrashCreate(userId: int, body: map<string, JsValue>, catalog: seq<Exercise>,
    id: string, rest: seq<JsValue>)
    requires id != []
    requires Field(body, "title").Str? && Field(body, "title").s != [] && TitleLengthOk(Field(body, "title").s)
    requires Field(body, "description") == Undefined
    requires Field(body, "exercises")
      == Arr([Obj(map["exerciseId" := Str(id), "sets" := Obj(map["toString" := Num(1.0)]), "reps" := Num(3.0)])] + rest)
    ensures CreateOutcome(userId, body, catalog) == Outcome(Response(500, Text("Error interno del servidor")), NoChange)
  {
    var title, items := Field(body, "title").s, Field(body, "exercises").items;
    ObjectSetsThrow(id, Num(3.0), catalog, Create);
    assert items[0] == Obj(map["exerciseId" := Str(id), "sets" := Obj(map["toString" := Num(1.0)]), "reps" := Num(3.0)]);
    FirstThrowDecides(items, catalog, Create);
    assert CheckBody(title, Undefined, items, catalog, Create) == Crash;
  }

  /** The exercise loop throws when its first element's checks throw. */
  lemma {:induction false} FirstThrowDecides(items: seq<JsValue>, catalog: seq<Exercise>, h: Handler)
    requires items != [] && CheckExercise(items[0], catalog, h).Throw?
    ensures CollectExercises(items, catalog, h) == Throw
  {
    FirstRejectDecides(Checks(items, catalog, h), 0);
  }

  /** The body checks of `updateRoutine` pass an empty `exercises` array. */
  lemma {:induction false} UpdateBodyNoExercises(body: map<string, JsValue>, catalog: seq<Exercise>, id: int, r: Routine)
    requires Field(body, "title").Str? && Field(body, "title").s != [] && TitleLengthOk(Field(body, "title").s)
    requires Field(body, "exercises") == Arr([])
    requires Field(body, "description") == Undefined
    ensures UpdateBody(body, catalog, id, r).response == Response(200, Text("Rutina actualizada correctamente"))
  {
    assert CollectExercises([], catalog, Update) == Normal(Collected([])) by {
      assert Checks([], catalog, Update) == [];
    }
    assert !DescriptionTooLong(Undefined);
    assert CheckBody(Field(body, "title").s, Undefined, [], catalog, Update) == Valid([]);
    assert TrimmedDescription(Undefined) == Normal(None);
  }

  /** `updateRoutine` accepts an empty `exercises` array: the routine is emptied and its
      missing description becomes `''`. */
  lemma {:induction false} UpdateAcceptsNoExercises(userId: int, idParam: string, body: map<string, JsValue>,
    catalog: seq<Exercise>, routines: map<int, Routine>)
    requires ParseInt(idParam).Some? && CanToggle(routines, userId, ParseInt(idParam).value)
    requires Field(body, "title").Str? && Field(body, "title").s != [] && TitleLengthOk(Field(body, "title").s)
    requires Field(body, "exercises") == Arr([])
    requires Field(body, "description") == Undefined
    ensures var o := UpdateOutcome(userId, idParam, body, catalog, routines);
      && o.response == Response(200, Text("Rutina actualizada correctamente"))
      && o.change.Updated? && o.change.routine.exercises == [] && o.change.routine.description == Str("")
  {
    var id := ParseInt(idParam).value;
    UpdateBodyNoExercises(body, catalog, id, routines[id]);
    var o := UpdateOutcome(userId, idParam, body, catalog, routines);
    assert o == UpdateBody(body, catalog, id, routines[id]);
    assert CollectExercises([], catalog, Update) == Normal(Collected([])) by {
      assert Checks([], catalog, Update) == [];
    }
    assert TrimmedDescription(Field(body, "description")) == Normal(None);
  }

  /** One iteration of the exercise loop. */
  method CheckOne(e: JsValue, catalog: seq<Exercise>, h: Handler) returns (r: Completion<Check>)
    ensures r == CheckExercise(e, catalog, h)
  {
    if e == Undefined || e == Null {
      return Throw;
    }
    var exerciseId, sets, reps := Get(e, "exerciseId").value, Get(e, "sets").value, Get(e, "reps").value;
    if !Truthy(exerciseId) || !Truthy(sets) || !Truthy(reps) {
      return Normal(Reject(Text("Datos incompletos en algún ejercicio")));
    }
    if PrimitiveThrows(sets) {
      return Throw;
    }
    if AtMostZero(sets) {
      return Normal(Reject(Text("Sets y repeticiones deben ser mayores que 0")));
    }
    if PrimitiveThrows(reps) {
      return Throw;
    }
    if AtMostZero(reps) {
      return Normal(Reject(Text("Sets y repeticiones deben ser mayores que 0")));
    }
    var apiExercise := Lookup(catalog, exerciseId);
    if apiExercise.None? && PrimitiveThrows(exerciseId) {
      return Throw;
    }
    if h == Create && apiExercise.None? {
      return Normal(Reject(WithId("Ejercicio no encontrado: ", exerciseId)));
    }
    if h == Update && (apiExercise.None? || apiExercise.value.name == "") {
      return Normal(Reject(WithId("Ejercicio no válido: ", exerciseId)));
    }
    return Normal(Accept(ExerciseLog(exerciseId, apiExercise.value.name, sets, reps)));
  }

  /** `for (const e of exercises) { ... }`, shared by both handlers. */
  method ValidateExercises(exercises: seq<JsValue>, catalog: seq<Exercise>, h: Handler) returns (r: Completion<Collected>)
    ensures r == CollectExercises(exercises, catalog, h)
  {
    var validatedExercises: seq<ExerciseLog> := [];
    ghost var vs := Checks(exercises, catalog, h);
    var k := 0;
    while k < |exercises|
      invariant k <= |exercises|
      invariant forall j :: 0 <= j < k ==> IsAccept(vs[j])
      invariant Collect(vs[..k]) == Normal(Collected(validatedExercises))
    {
      var v := CheckOne(exercises[k], catalog, h);
      assert vs[k] == v;
      if v.Throw? {
        FirstRejectDecides(vs, k);
        return Throw;
      }
      if v.value.Reject? {
        FirstRejectDecides(vs, k);
        return Normal(Rejected(v.value.message));
      }
      CollectStep(vs, k);
      AcceptedStep(vs, k);
      validatedExercises := validatedExercises + [v.value.log];
      k := k + 1;
    }
    assert vs[..k] == vs;
    return Normal(Collected(validatedExercises));
  }

  /** One more accepted verdict extends the accepted prefix. */
  lemma {:induction false} AcceptedStep(vs: seq<Completion<Check>>, k: nat)
    requires k < |vs| && IsAccept(vs[k])
    requires forall j :: 0 <= j < k ==> IsAccept(vs[j])
    ensures forall j :: 0 <= j < k + 1 ==> IsAccept(vs[j])
  {
  }

  /** The table after a change. */
  function Apply(routines: map<int, Routine>, newId: int, c: Change): map<int, Routine>
  {
    match c
    case NoChange => routines
    case Created(r) => routines[newId := r]
    case Updated(id, r) => routines[id := r]
    case Removed(id) => routines - {id}
  }

  /** The title, description and exercise checks of both handlers. */
  method ValidateBody(title: string, description: JsValue, items: seq<JsValue>, catalog: seq<Exercise>, h: Handler)
    returns (r: BodyCheck)
    ensures r == CheckBody(title, description, items, catalog, h)
  {
    var n := Utf16Length(Trim(title));
    if n < 3 || n > 50 {
      return Invalid(Text("El título debe tener entre 3 y 50 caracteres"));
    }
    if Truthy(description) && LengthThrows(description) {
      return Crash;
    }
    if Truthy(description) && LengthExceeds(description, 300) {
      return Invalid(Text("La descripción no puede superar los 300 caracteres"));
    }
    var validated := ValidateExercises(items, catalog, h);
    if validated.Throw? {
      return Crash;
    }
    if validated.value.Rejected? {
      return Invalid(validated.value.message);
    }
    return Valid(validated.value.logs);
  }

  lemma {:induction false} ApplyUpdated(routines: map<int, Routine>, newId: int, c: Change)
    requires c.Updated?
    ensures Apply(routines, newId, c) == routines[c.id := c.routine]
  {
  }

  /** `createRoutine`. */
  method CreateRoutine(store: RoutineStore, userId: int, body: map<string, JsValue>, catalog: seq<Exercise>) returns (response: Response)
    requires store.Valid()
    modifies store
    ensures store.Valid()
    ensures var o := CreateOutcome(userId, body, catalog);
      response == o.response && store.routines == Apply(old(store.routines), old(store.nextId), o.change)
  {
    var title, description, exercises := Field(body, "title"), Field(body, "description"), Field(body, "exercises");
    if !Truthy(title) || !exercises.Arr? || |exercises.items| == 0 {
      return Response(400, Text("Faltan datos requeridos"));
    }
    if !title.Str? {
      return Response(500, Text("Error interno del servidor"));
    }
    var checked := ValidateBody(title.s, description, exercises.items, catalog, Create);
    if checked.Crash? {
      return Response(500, Text("Error interno del servidor"));
    }
    if checked.Invalid? {
      return Response(400, checked.message);
    }
    var _ := store.Insert(Routine(title.s, description, false, userId, checked.logs));
    return Response(201, Text("Rutina creada correctamente"));
  }

  /** The part of `updateRoutine` after the ownership check: the body checks, then the
      assignments of lines 165-167 and the save. */
  method UpdateLoaded(store: RoutineStore, id: int, body: map<string, JsValue>, catalog: seq<Exercise>) returns (response: Response)
    requires store.Valid() && id in store.routines
    modifies store
    ensures store.Valid()
    ensures var o := UpdateBody(body, catalog, id, old(store.routines)[id]);
      response == o.response && store.routines == if o.change.Updated? then old(store.routines)[id := o.change.routine] else old(store.routines)
  {
    var title, description, exercises := Field(body, "title"), Field(body, "description"), Field(body, "exercises");
    if !Truthy(title) || !title.Str? || !exercises.Arr? {
      return Response(400, Text("Datos inválidos"));
    }
    var checked := ValidateBody(title.s, description, exercises.items, catalog, Update);
    if checked.Crash? {
      return Response(500, Text("Error al actualizar rutina"));
    }
    if checked.Invalid? {
      return Response(400, checked.message);
    }
    var d := TrimmedDescription(description);
    if d.Throw? {
      return Response(500, Text("Error al actualizar rutina"));
    }
    store.UpdateRoutineData(id, title.s, d.value, checked.logs);
    return Response(200, Text("Rutina actualizada correctamente"));
  }

  /** `updateRoutine`. */
  method UpdateRoutine(store: RoutineStore, userId: int, idParam: string, body: map<string, JsValue>, catalog: seq<Exercise>)
    returns (response: Response)
    requires store.Valid()
    modifies store
    ensures store.Valid()
    ensures var o := UpdateOutcome(userId, idParam, body, catalog, old(store.routines));
      response == o.response && store.routines == Apply(old(store.routines), old(store.nextId), o.change)
  {
    var routineId := ParseInt(idParam);
    if routineId.None? {
      return Response(400, Text("ID de rutina no válido"));
    }
    var id := routineId.value;
    if id !in store.routines {
      return Response(404, Text("Rutina no encontrada"));
    }
    if store.routines[id].ownerId != userId {
      return Response(403, Text("No tienes permiso para editar esta rutina"));
    }
    ghost var before := store.routines;
    ghost var o := UpdateBody(body, catalog, id, before[id]);
    assert UpdateOutcome(userId, idParam, body, catalog, before) == o;
    response := UpdateLoaded(store, id, body, catalog);
    assert store.routines == Apply(before, old(store.nextId), o.change) by {
      if o.change.Updated? {
        ApplyUpdated(before, old(store.nextId), o.change);
      }
    }
  }

  /** `deleteRoutine`. */
  method DeleteRoutine(store: RoutineStore, userId: int, idParam: string) returns (response: Response)
    requires store.Valid()
    modifies store
    ensures store.Valid()
    ensures var o := DeleteOutcome(userId, idParam, old(store.routines));
      response == o.response && store.routines == Apply(old(store.routines), old(store.nextId), o.change)
  {
    var routineId := ParseInt(idParam);
    if routineId.None? {
      return Response(400, Text("ID de rutina no válido"));
    }
    var id := routineId.value;
    if id !in store.routines {
      return Response(404, Text("Rutina no encontrada"));
    }
    if store.routines[id].ownerId != userId {
      return Response(403, Text("No tienes permiso para eliminar esta rutina"));
    }
    store.Remove(id);
    return Response(200, Text("Rutina eliminada correctamente"));
  }
}
