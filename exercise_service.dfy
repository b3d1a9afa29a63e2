/** The catalog helpers of `exerciseService.ts`: lookup by id, filtering by target muscle, and
    the sorted list of distinct targets. The catalog, which the service fetches from the
    ExerciseDB web API, is a parameter. */
module ExerciseService {
  import opened Wrappers
  import opened JsStrings
  import opened Seqs

  /** A catalog exercise. An absent `bodyPart` or `target` property is `None`; an absent name
      is the empty string, which is just as falsy. */
  datatype Exercise = Exercise(id: string, name: string, bodyPart: Option<string>, target: Option<string>)

  /** `e.target` is truthy: present and not empty. */
  predicate HasTarget(e: Exercise)
  {
    e.target.Some? && e.target.value != []
  }

  /** `getExerciseById`, `catalog.find(e => e.id === id) || null`: the first exercise with that
      id. An exercise object is truthy, so `|| null` only turns `undefined` into `null`. */
  function FindById(catalog: seq<Exercise>, id: string): (r: Option<Exercise>)
    ensures r.None? <==> forall e :: e in catalog ==> e.id != id
    ensures r.Some? ==> r.value.id == id && r.value == catalog[FirstIdIndex(catalog, id)]
  {
    if catalog == [] then None
    else if catalog[0].id == id then Some(catalog[0])
    else FindById(catalog[1..], id)
  }

  /** The index of the first exercise with id `id`. */
  function FirstIdIndex(catalog: seq<Exercise>, id: string): (i: nat)
    requires exists e :: e in catalog && e.id == id
    ensures i < |catalog| && catalog[i].id == id
    ensures forall j :: 0 <= j < i ==> catalog[j].id != id
  {
    if catalog[0].id == id then 0
    else
      assert exists e :: e in catalog[1..] && e.id == id by {
        var e :| e in catalog && e.id == id;
        assert e in catalog[1..];
      }
      1 + FirstIdIndex(catalog[1..], id)
  }

  /** The exercise found first is the first one with that id. */
  lemma {:induction false} FindByIdIsFirst(catalog: seq<Exercise>, id: string, i: nat)
    requires i < |catalog| && catalog[i].id == id
    requires forall j :: 0 <= j < i ==> catalog[j].id != id
    ensures FindById(catalog, id) == Some(catalog[i])
  {
    assert catalog[i] in catalog;
    assert FirstIdIndex(catalog, id) == i by {
      var k := FirstIdIndex(catalog, id);
      assert !(k < i) && !(i < k);
    }
  }

  /** `e.target?.toLowerCase() === target.toLowerCase()`. */
  predicate TargetMatches(e: Exercise, target: string)
  {
    e.target.Some? && Lower(e.target.value) == Lower(target)
  }

  /** `filterExercisesByTarget`: the input unchanged when the target is absent or empty,
      otherwise the exercises whose target equals it ignoring case. */
  function FilterByTarget(exercises: seq<Exercise>, target: Option<string>): (r: seq<Exercise>)
    ensures target.None? || target.value == [] ==> r == exercises
    ensures target.Some? && target.value != [] ==>
      (forall e :: e in r <==> e in exercises && TargetMatches(e, target.value))
    ensures target.Some? && target.value != [] ==>
      forall e :: Occ(r, e) == if TargetMatches(e, target.value) then Occ(exercises, e) else 0
    ensures IsSubsequence(r, exercises)
  {
    if target.None? || target.value == [] then
      assert IsSubsequence(exercises, exercises) by {
        SubsequenceReflexive(exercises);
      }
      exercises
    else
      var r := Filter(exercises, MatchesTarget(target.value));
      FilterMembers(exercises, MatchesTarget(target.value));
      FilterIsSubsequence(exercises, MatchesTarget(target.value));
      assert forall e :: Occ(r, e) == if TargetMatches(e, target.value) then Occ(exercises, e) else 0 by {
        forall e ensures Occ(r, e) == if TargetMatches(e, target.value) then Occ(exercises, e) else 0 {
          FilterOcc(exercises, MatchesTarget(target.value), e);
        }
      }
      r
  }

  function MatchesTarget(target: string): Exercise -> bool
  {
    e => TargetMatches(e, target)
  }

  /** An exercise without a target never passes a target filter. */
  lemma {:induction false} NoTargetIsDropped(exercises: seq<Exercise>, target: string, e: Exercise)
    requires target != [] && e.target.None?
    ensures e !in FilterByTarget(exercises, Some(target))
  {
  }

  /** Filtering by a target twice is filtering once. */
  lemma {:induction false} FilterByTargetIdempotent(exercises: seq<Exercise>, target: Option<string>)
    ensures FilterByTarget(FilterByTarget(exercises, target), target) == FilterByTarget(exercises, target)
  {
    if target.Some? && target.value != [] {
      var p := MatchesTarget(target.value);
      FilterMembers(exercises, p);
      FilterAll(Filter(exercises, p), p);
    }
  }

  /** Strictly increasing in the default string order of `Array.prototype.sort`. */
  predicate StrictlyIncreasing(s: seq<string>)
  {
    forall i, j :: 0 <= i < j < |s| ==> StrLess(s[i], s[j])
  }

  /** Inserts a new string into a strictly increasing list at its place. */
  function InsertString(s: seq<string>, x: string): (r: seq<string>)
    requires StrictlyIncreasing(s) && x !in s
    ensures StrictlyIncreasing(r)
    ensures |r| == |s| + 1
    ensures forall y :: y in r <==> y in s || y == x
  {
    if s == [] then [x]
    else
      var s', last := s[..|s| - 1], s[|s| - 1];
      assert s == s' + [last];
      if StrLess(last, x) then
        assert forall i :: 0 <= i < |s| ==> StrLess(s[i], x) by {
          forall i | 0 <= i < |s| ensures StrLess(s[i], x) {
            if i < |s| - 1 {
              StrLessTransitive(s[i], last, x);
            }
          }
        }
        s + [x]
      else
        StrLessTotal(last, x);
        var r' := InsertString(s', x);
        assert forall y :: y in r' ==> StrLess(y, last) by {
          forall y | y in r' ensures StrLess(y, last) {
            if y != x {
              var i :| 0 <= i < |s'| && s'[i] == y;
              assert s[i] == y;
            }
          }
        }
        r' + [last]
  }

  /** `Array.prototype.sort()` with no comparator, on distinct strings. */
  function SortStrings(s: seq<string>): (r: seq<string>)
    requires NoDuplicates(s)
    ensures StrictlyIncreasing(r)
    ensures |r| == |s|
    ensures forall y :: y in r <==> y in s
  {
    if s == [] then []
    else
      var s' := s[..|s| - 1];
      assert NoDuplicates(s');
      assert s[|s| - 1] !in s';
      InsertString(SortStrings(s'), s[|s| - 1])
  }

  /** The lower-cased truthy targets, in order of occurrence. */
  function LowerTargets(exercises: seq<Exercise>): (r: seq<string>)
    ensures forall t :: t in r <==> exists e :: e in exercises && HasTarget(e) && t == Lower(e.target.value)
  {
    if exercises == [] then []
    else
      var rest := LowerTargets(exercises[..|exercises| - 1]);
      var e := exercises[|exercises| - 1];
      assert exercises == exercises[..|exercises| - 1] + [e];
      rest + (if HasTarget(e) then [Lower(e.target.value)] else [])
  }

  lemma {:induction false} LowerTargetsStep(exercises: seq<Exercise>, i: nat)
    requires i < |exercises|
    ensures LowerTargets(exercises[..i + 1]) == LowerTargets(exercises[..i])
      + (if HasTarget(exercises[i]) then [Lower(exercises[i].target.value)] else [])
  {
    var q := exercises[..i + 1];
    assert q[..|q| - 1] == exercises[..i] && q[|q| - 1] == exercises[i];
  }

  /** Every lower-cased target is its own lower case. */
  lemma {:induction false} LowerTargetsAreLower(exercises: seq<Exercise>, t: string)
    requires t in LowerTargets(exercises)
    ensures Lower(t) == t
  {
    var e :| e in exercises && HasTarget(e) && t == Lower(e.target.value);
    LowerIdempotent(e.target.value);
  }

  /** `getSortedTargets`: the truthy targets, lower-cased, collected in a `Set` by a `forEach`
      and sorted. */
  method GetSortedTargets(exercises: seq<Exercise>) returns (r: seq<string>)
    ensures StrictlyIncreasing(r)
    ensures forall t :: t in r <==> exists e :: e in exercises && HasTarget(e) && t == Lower(e.target.value)
    ensures forall t :: t in r ==> Lower(t) == t
  {
    var targetsSet: seq<string> := [];
    var i := 0;
    while i < |exercises|
      invariant i <= |exercises|
      invariant targetsSet == Distinct(LowerTargets(exercises[..i]))
    {
      var e := exercises[i];
      LowerTargetsStep(exercises, i);
      if e.target.Some? && e.target.value != [] {
        assert HasTarget(e);
        var t := Lower(e.target.value);
        DistinctAppend(LowerTargets(exercises[..i]), t);
        if t !in targetsSet {
          targetsSet := targetsSet + [t];
        }
      } else {
        assert !HasTarget(e);
        assert LowerTargets(exercises[..i + 1]) == LowerTargets(exercises[..i]) + [];
        assert LowerTargets(exercises[..i]) + [] == LowerTargets(exercises[..i]);
      }
      i := i + 1;
    }
    assert exercises[..i] == exercises;
    r := SortStrings(targetsSet);
    forall t | t in r ensures Lower(t) == t {
      LowerTargetsAreLower(exercises, t);
    }
  }
}
