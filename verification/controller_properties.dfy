/** Properties relating several handler calls, and worked examples, stated
    over the transitions of `ToDoController`. */
module ControllerProperties {
  import opened Optional
  import opened Reminders
  import opened ListModel
  import opened ToDoController

  /** Deleting has the same local effect whether the store deleted the
      reminder or another user already had. */
  lemma DeleteIgnoresStoreOutcome(s: State)
    requires SelectionListed(s)
    ensures Delete(s, Ok) == Delete(s, NotFound)
  {
  }

  /** Selecting the same row twice is the same as selecting it once. */
  lemma SelectIsIdempotent(s: State, i: int)
    requires 0 <= i < |s.list|
    ensures OnSelect(OnSelect(s, i), i) == OnSelect(s, i)
  {
  }

  /** A successful update (the store answers `Ok`) right after selecting a
      row, without typing, saves the row's reminder unchanged: the selection
      is still that very reminder. */
  lemma UpdateWithoutEditsKeepsSelection(s: State, i: int, viewIndex: int, found: seq<Reminder>)
    requires 0 <= i < |s.list|
    ensures Update(OnSelect(s, i), Ok, viewIndex, found).selected == Some(s.list[i])
  {
    EditWithOwnForm(s.list[i]);
  }

  /** A successful update repeated with the same form and the same store
      answer changes nothing more. */
  lemma UpdateIsIdempotent(s: State, viewIndex: int, found: seq<Reminder>)
    ensures Update(Update(s, Ok, viewIndex, found), Ok, viewIndex, found) == Update(s, Ok, viewIndex, found)
  {
    if s.selected.Some? {
      EditWithOwnForm(Edit(s.selected.value, s.form));
    }
  }

  /** Pressing add twice without touching the form adds two reminders: the
      second click builds a new reminder, which `persist` gives a new
      identity, so the selection moves to a reminder different from the first
      one but carrying the same values, and the list is the second answer. */
  lemma AddTwiceAddsTwo(s: State, id1: Id, found1: seq<Reminder>, id2: Id, found2: seq<Reminder>)
    requires Complete(s.form) && id1 != id2
    ensures Add(Add(s, id1, found1), id2, found2).selected == Some(FromForm(id2, s.form))
    ensures Add(Add(s, id1, found1), id2, found2).selected != Add(s, id1, found1).selected
    ensures FormOf(Add(Add(s, id1, found1), id2, found2).selected.value) == FormOf(Add(s, id1, found1).selected.value)
    ensures Add(Add(s, id1, found1), id2, found2).list == found2
  {
  }

  /** In a list without repetitions, deleting the selected reminder removes
      it entirely, shortens the list by one and keeps it repetition-free. */
  lemma {:induction false} DeleteRemovesSelection(s: State, o: StoreOutcome)
    requires Distinct(s.list)
    requires s.selected.Some? && s.selected.value in s.list
    ensures |Delete(s, o).list| == |s.list| - 1
    ensures s.selected.value !in Delete(s, o).list
    ensures Distinct(Delete(s, o).list)
  {
    RemoveFirstOfDistinct(s.list, s.selected.value);
  }

  /** Selecting row `i` of a repetition-free list and deleting removes exactly
      row `i` and selects the row that followed it, or the new last row when
      `i` was last, or nothing when the list had one row. */
  lemma {:induction false} SelectThenDelete(s: State, i: int, o: StoreOutcome)
    requires Distinct(s.list) && 0 <= i < |s.list|
    ensures Delete(OnSelect(s, i), o).list == RemoveAt(s.list, i)
    ensures i + 1 < |s.list| ==> Delete(OnSelect(s, i), o).selected == Some(s.list[i + 1])
    ensures i + 1 == |s.list| && i > 0 ==> Delete(OnSelect(s, i), o).selected == Some(s.list[i - 1])
    ensures |s.list| == 1 ==> Delete(OnSelect(s, i), o).selected == None
  {
    IndexOfInDistinct(s.list, i);
  }

  /** Unlike what a reader might expect, the selection need not be in the
      list after `add`: the new reminder is selected whatever `findAll`
      returned. */
  lemma AddCanLeaveSelectionUnlisted()
    ensures
      var other := Reminder(7, Some("Walk dog"), Some(1), Some(Date(0)));
      var s := State([], None, Form(Some("Buy milk"), Some(2), Some(Date(0))));
      var r := Add(s, 1, [other]);
      r.selected.Some? && r.selected.value !in r.list && !SelectionListed(r)
  {
  }

  /** Nor after a successful `update`: the list is reloaded but the selection
      keeps the edited reminder, which the reloaded list may not contain. */
  lemma UpdateCanLeaveSelectionStale()
    ensures
      var a := Reminder(1, Some("A"), Some(1), Some(Date(0)));
      var s := State([a], Some(a), Form(Some("A2"), Some(1), Some(Date(0))));
      var r := Update(s, Ok, 0, [a]);
      r.selected.Some? && r.selected.value !in r.list && !SelectionListed(r)
  {
  }

  /** Add with the priority box empty does nothing. */
  lemma AddIncompleteScenario(s: State, id: Id, found: seq<Reminder>)
    requires s.form.priority == None
    ensures Add(s, id, found) == s
  {
  }

  /** The list holds A, B, C with B selected; another user deletes B and
      update is pressed: the store reports B missing, the remaining first
      item A is selected and shown, and the list is what the store holds. */
  lemma UpdateLostRaceScenario()
    ensures
      var a := Reminder(1, Some("A"), Some(1), Some(Date(10)));
      var b := Reminder(2, Some("B"), Some(2), Some(Date(20)));
      var c := Reminder(3, Some("C"), Some(3), Some(Date(30)));
      var s := OnSelect(State([a, b, c], None, Form(None, None, None)), 1);
      var r := Update(s, NotFound, 1, [a, c]);
      r.list == [a, c] && r.selected == Some(a) && r.form == FormOf(a)
  {
  }

  /** Deleting the middle one of A, B, C selects C; deleting the only
      reminder leaves nothing selected. */
  lemma DeleteScenarios()
    ensures
      var a := Reminder(1, Some("A"), Some(1), Some(Date(10)));
      var b := Reminder(2, Some("B"), Some(2), Some(Date(20)));
      var c := Reminder(3, Some("C"), Some(3), Some(Date(30)));
      var r := Delete(OnSelect(State([a, b, c], None, Form(None, None, None)), 1), Ok);
      var q := Delete(OnSelect(State([a], None, Form(None, None, None)), 0), Ok);
      r.list == [a, c] && r.selected == Some(c) && q.list == [] && q.selected == None
  {
  }
}
