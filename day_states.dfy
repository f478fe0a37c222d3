/**
 * The weekday flags kept under the localStorage key `dayStates`. A position is
 * `None` when it is a hole, which JSON stores as `null`.
 */
module DayStates {
  import opened Options

  /**
   * `dayStates[index] = state` on a JavaScript array: inside the array it
   * replaces one position; past the end it grows the array to `index + 1`,
   * leaving holes between the old end and `index`.
   */
  function SetAt(states: seq<Option<bool>>, index: nat, state: bool): (r: seq<Option<bool>>)
    ensures |r| == if index < |states| then |states| else index + 1
    ensures r[index] == Some(state)
    ensures forall i :: 0 <= i < |states| && i != index ==> r[i] == states[i]
    ensures forall i :: |states| <= i < index ==> r[i] == None
  {
    if index < |states| then states[index := Some(state)]
    else states + seq(index - |states|, _ => None) + [Some(state)]
  }

  /**
   * `dayStates[i] || false`: the stored boolean at `i`, and `false` for a hole
   * or a position past the end.
   */
  function Checked(states: seq<Option<bool>>, i: nat): (r: bool)
    ensures i < |states| && states[i].Some? ==> r == states[i].value
    ensures i >= |states| || states[i].None? ==> !r
  {
    i < |states| && states[i] == Some(true)
  }

  /**
   * After `saveDayState(index, state)`, loading gives `state` at `index` and
   * what it gave before at every other checkbox.
   */
  lemma LoadAfterSave(states: seq<Option<bool>>, index: nat, state: bool, i: nat)
    ensures Checked(SetAt(states, index, state), i) == if i == index then state else Checked(states, i)
  {
  }

  /** Saving the same flag twice is the same as saving it once. */
  lemma SetAtIdempotent(states: seq<Option<bool>>, index: nat, state: bool)
    ensures SetAt(SetAt(states, index, state), index, state) == SetAt(states, index, state)
  {
  }
}
