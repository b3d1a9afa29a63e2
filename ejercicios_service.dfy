/** `obtenerEjercicios`: the translated exercise list, narrowed by an optional body part and
    an optional target, each compared ignoring case. The list read from the JSON file is a
    parameter. */
module EjerciciosService {
  import opened Wrappers
  import opened JsStrings
  import opened Seqs
  import opened JsValues
  import opened ExerciseService

  /** The query filters `{ bodyPart, target }`; `None` is a missing query parameter. */
  datatype Filters = Filters(bodyPart: Option<string>, target: Option<string>)

  /** The two string fields a filter reads. */
  datatype Column = BodyPart | Target

  function ColumnOf(e: Exercise, c: Column): Option<string>
  {
    if c == BodyPart then e.bodyPart else e.target
  }

  /** `if (f)`: the filter applies when it is a non-empty string. */
  predicate Given(f: Option<string>)
  {
    f.Some? && f.value != []
  }

  /** `e.<column>.toLowerCase() === value.toLowerCase()`, for an entry that has the field. */
  predicate ColumnMatches(e: Exercise, c: Column, value: string)
  {
    ColumnOf(e, c).Some? && Lower(ColumnOf(e, c).value) == Lower(value)
  }

  function MatchesColumn(c: Column, value: string): Exercise -> bool
  {
    e => ColumnMatches(e, c, value)
  }

  /** `xs.filter(e => e.<column>.toLowerCase() === value.toLowerCase())`: an entry without the
      field has no `toLowerCase` and the call throws; otherwise the matching entries in order. */
  function FilterColumn(xs: seq<Exercise>, c: Column, value: string): (r: Completion<seq<Exercise>>)
    ensures r.Throw? <==> exists e :: e in xs && ColumnOf(e, c).None?
    ensures r.Normal? ==> r.value == Filter(xs, MatchesColumn(c, value))
  {
    if xs == [] then Normal([])
    else
      var prefix := xs[..|xs| - 1];
      var last := xs[|xs| - 1];
      assert xs == prefix + [last];
      var before := FilterColumn(prefix, c, value);
      if before.Throw? then
        var w :| w in prefix && ColumnOf(w, c).None?;
        assert w in xs;
        Throw
      else if ColumnOf(last, c).None? then Throw
      else
        assert forall e :: e in xs && ColumnOf(e, c).None? ==> e in prefix;
        Normal(before.value + (if ColumnMatches(last, c, value) then [last] else []))
  }

  /** `obtenerEjercicios(filtros)`: the body-part filter, then the target filter on what is left. */
  function ObtenerEjercicios(ejercicios: seq<Exercise>, filtros: Filters): Completion<seq<Exercise>>
  {
    var afterBodyPart :=
      if Given(filtros.bodyPart) then FilterColumn(ejercicios, BodyPart, filtros.bodyPart.value)
      else Normal(ejercicios);
    if afterBodyPart.Throw? then Throw
    else if Given(filtros.target) then FilterColumn(afterBodyPart.value, Target, filtros.target.value)
    else afterBodyPart
  }

  /** An entry passes the body-part filter, if one is given. */
  predicate PassesBodyPart(e: Exercise, filtros: Filters)
  {
    Given(filtros.bodyPart) ==> ColumnMatches(e, BodyPart, filtros.bodyPart.value)
  }

  /** An entry passes the filters it is given. */
  predicate PassesFilters(e: Exercise, filtros: Filters)
  {
    PassesBodyPart(e, filtros) && (Given(filtros.target) ==> ColumnMatches(e, Target, filtros.target.value))
  }

  /** With no filter, or only empty ones, the whole list is returned in file order. */
  lemma {:induction false} NoFiltersReturnsAll(ejercicios: seq<Exercise>, filtros: Filters)
    requires !Given(filtros.bodyPart) && !Given(filtros.target)
    ensures ObtenerEjercicios(ejercicios, filtros) == Normal(ejercicios)
  {
  }

  /** The result is an order-preserving subsequence of the list, and holds exactly the entries
      that pass every given filter: with both filters, their conjunction. */
  lemma {:induction false} FilteredMeaning(ejercicios: seq<Exercise>, filtros: Filters)
    requires ObtenerEjercicios(ejercicios, filtros).Normal?
    ensures var r := ObtenerEjercicios(ejercicios, filtros).value;
      && IsSubsequence(r, ejercicios)
      && forall e :: e in r <==> e in ejercicios && PassesFilters(e, filtros)
  {
    var bp, t := filtros.bodyPart, filtros.target;
    var mid := if Given(bp) then Filter(ejercicios, MatchesColumn(BodyPart, bp.value)) else ejercicios;
    assert IsSubsequence(mid, ejercicios) && forall e :: e in mid <==> e in ejercicios && (Given(bp) ==> ColumnMatches(e, BodyPart, bp.value)) by {
      if Given(bp) {
        FilterIsSubsequence(ejercicios, MatchesColumn(BodyPart, bp.value));
        FilterMembers(ejercicios, MatchesColumn(BodyPart, bp.value));
      } else {
        SubsequenceReflexive(ejercicios);
      }
    }
    if Given(t) {
      var p := MatchesColumn(Target, t.value);
      FilterIsSubsequence(mid, p);
      FilterMembers(mid, p);
      SubsequenceTransitive(Filter(mid, p), mid, ejercicios);
    }
  }

  /** The call throws exactly when a filter meets an entry without its field: any entry for
      the body part, and for the target only an entry that survived the body part. */
  lemma {:induction false} ThrowsOnMissingField(ejercicios: seq<Exercise>, filtros: Filters)
    ensures ObtenerEjercicios(ejercicios, filtros).Throw? <==>
      || (Given(filtros.bodyPart) && exists e :: e in ejercicios && e.bodyPart.None?)
      || (Given(filtros.target) && exists e :: e in ejercicios && e.target.None? && PassesBodyPart(e, filtros))
  {
    var bp, t := filtros.bodyPart, filtros.target;
    if Given(bp) {
      FilterMembers(ejercicios, MatchesColumn(BodyPart, bp.value));
    }
  }
}
