/**
 * The exercise log kept under the localStorage key `exercises`: the validation
 * of the submit handler, and the filter that `deleteExercise` applies.
 */
module ExerciseLog {
  import opened Options

  /** The four raw strings read from the form's inputs. */
  datatype Form = Form(exercicio: string, repeticoes: string, series: string, peso: string)

  /** One stored entry. Reps, sets and weight stay the strings the user typed. */
  datatype Exercise = Exercise(exercicio: string, repeticoes: string, series: string, peso: string, id: int)

  /** No field of the entry is the empty string (the only falsy input value). */
  ghost predicate Complete(e: Exercise) {
    e.exercicio != "" && e.repeticoes != "" && e.series != "" && e.peso != ""
  }

  ghost predicate AllComplete(list: seq<Exercise>) {
    forall e :: e in list ==> Complete(e)
  }

  /**
   * The submit handler: a form with any empty field is rejected; otherwise it
   * becomes an entry carrying the form's strings and the timestamp `now`.
   */
  function Validate(f: Form, now: int): (r: Option<Exercise>)
    ensures r.None? <==> f.exercicio == "" || f.repeticoes == "" || f.series == "" || f.peso == ""
    ensures r.Some? ==> Complete(r.value) && r.value.id == now
    ensures r.Some? ==>
      r.value.exercicio == f.exercicio && r.value.repeticoes == f.repeticoes &&
      r.value.series == f.series && r.value.peso == f.peso
  {
    if f.exercicio == "" || f.repeticoes == "" || f.series == "" || f.peso == "" then None
    else Some(Exercise(f.exercicio, f.repeticoes, f.series, f.peso, now))
  }

  /** `exercises.filter(exercise => exercise.id !== id)`. */
  function Without(list: seq<Exercise>, id: int): (r: seq<Exercise>)
    ensures forall e :: e in r <==> e in list && e.id != id
    ensures |r| <= |list|
  {
    if list == [] then []
    else (if list[0].id != id then [list[0]] else []) + Without(list[1..], id)
  }

  /**
   * The positions of `list`, in increasing order, whose entry does not carry
   * `id`: an independent description of what a filter keeps.
   */
  function KeptPositions(list: seq<Exercise>, id: int): (ps: seq<nat>)
    ensures forall k :: 0 <= k < |ps| ==> ps[k] < |list| && list[ps[k]].id != id
    ensures forall k, m :: 0 <= k < m < |ps| ==> ps[k] < ps[m]
    ensures forall p: nat :: p < |list| && list[p].id != id ==> p in ps
  {
    if list == [] then []
    else
      var n := |list| - 1;
      KeptPositions(list[..n], id) + (if list[n].id != id then [n] else [])
  }

  /** Filtering distributes over concatenation. */
  lemma {:induction false} WithoutAppend(a: seq<Exercise>, b: seq<Exercise>, id: int)
    ensures Without(a + b, id) == Without(a, id) + Without(b, id)
  {
    if a == [] {
      assert a + b == b;
    } else {
      assert (a + b)[0] == a[0];
      assert (a + b)[1..] == a[1..] + b;
      WithoutAppend(a[1..], b, id);
    }
  }

  /**
   * The filtered list is exactly the entries at the kept positions, in their
   * original order: every entry with `id` is dropped, every other one kept,
   * and relative order is preserved.
   */
  lemma {:induction false} WithoutAtKeptPositions(list: seq<Exercise>, id: int)
    ensures |Without(list, id)| == |KeptPositions(list, id)|
    ensures forall k :: 0 <= k < |Without(list, id)| ==>
              Without(list, id)[k] == list[KeptPositions(list, id)[k]]
  {
    if list != [] {
      var n := |list| - 1;
      var front, last := list[..n], list[n];
      assert list == front + [last];
      WithoutAppend(front, [last], id);
      assert Without([last], id) == if last.id != id then [last] else [];
      WithoutAtKeptPositions(front, id);
      var w, ps := Without(front, id), KeptPositions(front, id);
      assert KeptPositions(list, id) == ps + (if last.id != id then [n] else []);
      forall k | 0 <= k < |Without(list, id)|
        ensures Without(list, id)[k] == list[KeptPositions(list, id)[k]]
      {
        if k < |w| {
          assert Without(list, id)[k] == w[k] == front[ps[k]];
        }
      }
    }
  }

  /** Deleting an id that no entry carries leaves the list as it was. */
  lemma {:induction false} WithoutAbsent(list: seq<Exercise>, id: int)
    requires forall e :: e in list ==> e.id != id
    ensures Without(list, id) == list
  {
    if list != [] {
      assert list[0] in list;
      assert forall e :: e in list[1..] ==> e in list;
      WithoutAbsent(list[1..], id);
      assert list == [list[0]] + list[1..];
    }
  }

  /** Deleting the same id twice is the same as deleting it once. */
  lemma WithoutIdempotent(list: seq<Exercise>, id: int)
    ensures Without(Without(list, id), id) == Without(list, id)
  {
    WithoutAbsent(Without(list, id), id);
  }

  /**
   * Appending an entry whose id is not yet in the list and then deleting that
   * id gives back the list as it was.
   */
  lemma SaveThenDelete(list: seq<Exercise>, e: Exercise)
    requires forall x :: x in list ==> x.id != e.id
    ensures Without(list + [e], e.id) == list
  {
    WithoutAppend(list, [e], e.id);
    WithoutAbsent(list, e.id);
    assert [e][1..] == [];
  }
}
