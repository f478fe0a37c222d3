/**
 * The persisted state behind the page: localStorage with its two JSON-encoded
 * keys, read with the `|| []` default and written back whole.
 */
module GymStore {
  import opened Options
  import opened ExerciseLog
  import opened DayStates

  /** `JSON.parse(localStorage.getItem(key)) || []`. */
  function OrEmpty<T>(stored: Option<seq<T>>): (r: seq<T>)
    ensures stored.None? ==> r == []
    ensures stored.Some? ==> r == stored.value
  {
    if stored.Some? then stored.value else []
  }

  class Store {
    /** The key `exercises`; `None` when the key is missing or holds `null`. */
    var exercises: Option<seq<Exercise>>
    /** The key `dayStates`; `None` when the key is missing or holds `null`. */
    var dayStates: Option<seq<Option<bool>>>

    /** The store as a previous session left it. */
    constructor (exercises: Option<seq<Exercise>>, dayStates: Option<seq<Option<bool>>>)
      ensures this.exercises == exercises && this.dayStates == dayStates
    {
      this.exercises := exercises;
      this.dayStates := dayStates;
    }

    /** The exercise list as every reader sees it. */
    function Exercises(): (r: seq<Exercise>)
      reads this
      ensures exercises.None? ==> r == []
      ensures exercises.Some? ==> r == exercises.value
    {
      OrEmpty(exercises)
    }

    /** The day flags as every reader sees them. */
    function Days(): (r: seq<Option<bool>>)
      reads this
      ensures dayStates.None? ==> r == []
      ensures dayStates.Some? ==> r == dayStates.value
    {
      OrEmpty(dayStates)
    }

    /** `saveExercise`: read the list, push the entry, write the list back. */
    method SaveExercise(e: Exercise)
      modifies this
      ensures exercises == Some(old(Exercises()) + [e])
      ensures dayStates == old(dayStates)
    {
      var list := Exercises();
      list := list + [e];
      exercises := Some(list);
    }

    /**
     * The submit handler's storage half: reject a form with an empty field
     * and leave the store as it was; otherwise save the new entry with id `now`.
     */
    method Submit(f: Form, now: int) returns (accepted: bool)
      modifies this
      ensures accepted <==> f.exercicio != "" && f.repeticoes != "" && f.series != "" && f.peso != ""
      ensures !accepted ==> exercises == old(exercises)
      ensures accepted ==>
        exercises == Some(old(Exercises()) + [Exercise(f.exercicio, f.repeticoes, f.series, f.peso, now)])
      ensures dayStates == old(dayStates)
      ensures AllComplete(old(Exercises())) ==> AllComplete(Exercises())
    {
      var entry := Validate(f, now);
      if entry.None? {
        return false;
      }
      SaveExercise(entry.value);
      accepted := true;
    }

    /** `deleteExercise`'s storage half: keep the entries whose id differs. */
    method DeleteExercise(id: int)
      modifies this
      ensures exercises == Some(Without(old(Exercises()), id))
      ensures forall e :: e in Exercises() ==> e.id != id
      ensures dayStates == old(dayStates)
      ensures AllComplete(old(Exercises())) ==> AllComplete(Exercises())
    {
      var list := Exercises();
      exercises := Some(Without(list, id));
    }

    /** `saveDayState`: read the flags, set one position, write them back. */
    method SaveDayState(index: nat, state: bool)
      modifies this
      ensures dayStates == Some(SetAt(old(Days()), index, state))
      ensures exercises == old(exercises)
    {
      var states := Days();
      states := SetAt(states, index, state);
      dayStates := Some(states);
    }

    /** `loadDayStates`: set every checkbox from the stored flag at its index. */
    method LoadDayStates(checkboxes: array<bool>)
      modifies checkboxes
      ensures forall i :: 0 <= i < checkboxes.Length ==> checkboxes[i] == Checked(Days(), i)
    {
      var states := Days();
      for i := 0 to checkboxes.Length
        invariant forall j :: 0 <= j < i ==> checkboxes[j] == Checked(states, j)
      {
        checkboxes[i] := Checked(states, i);
      }
    }
  }

  /** With no `exercises` key, the first save writes a one-entry list. */
  method FirstSave(s: Store, e: Exercise)
    requires s.exercises == None
    modifies s
    ensures s.exercises == Some([e])
    ensures s.dayStates == old(s.dayStates)
  {
    s.SaveExercise(e);
    assert [] + [e] == [e];
  }

  /** With no `exercises` key, a delete writes an empty list under the key. */
  method DeleteOnMissingKey(s: Store, id: int)
    requires s.exercises == None
    modifies s
    ensures s.exercises == Some([])
    ensures s.dayStates == old(s.dayStates)
  {
    s.DeleteExercise(id);
  }

  /**
   * Saving an entry whose id is fresh and then deleting that id gives back
   * the list as it was.
   */
  method SaveThenDeleteRestores(s: Store, e: Exercise)
    requires forall x :: x in s.Exercises() ==> x.id != e.id
    modifies s
    ensures s.Exercises() == old(s.Exercises())
  {
    ghost var before := s.Exercises();
    s.SaveExercise(e);
    s.DeleteExercise(e.id);
    SaveThenDelete(before, e);
  }

  /** A flag saved and then loaded shows on its checkbox. */
  method SaveThenLoad(s: Store, checkboxes: array<bool>, index: nat, state: bool)
    requires index < checkboxes.Length
    modifies s, checkboxes
    ensures checkboxes[index] == state
  {
    s.SaveDayState(index, state);
    s.LoadDayStates(checkboxes);
  }
}
