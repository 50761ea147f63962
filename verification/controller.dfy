/** The to-do presenter: its state is the list model, the selected reminder
    and the three form fields, and each event handler is a pure transition.

    The store's `findAll` answer (`found`), the identity `persist` assigns, the
    outcome of `merge`/`delete` and the list box's selected index are inputs
    to the transitions instead of calls to collaborators. */
module ToDoController {
  import opened Optional
  import opened Reminders
  import opened ListModel

  /** What the store answers to `merge` or `delete`: success, or the entity
      was already removed by another user. */
  datatype StoreOutcome = Ok | NotFound

  datatype State = State(list: seq<Reminder>, selected: Option<Reminder>, form: Form)

  /** The form displays the selected reminder's fields. */
  predicate ShowsSelection(s: State) {
    s.selected.Some? ==> s.form == FormOf(s.selected.value)
  }

  /** The selected reminder can be looked up in the list, or the list is
      empty; this is what `delete` needs to find the position it reselects. */
  predicate SelectionListed(s: State) {
    s.selected.Some? ==> s.selected.value in s.list || |s.list| == 0
  }

  /** Composing the window: the list model is filled with everything the
      store holds and nothing is selected yet. */
  function Compose(found: seq<Reminder>, form: Form): (r: State)
    ensures r.list == found && r.form == form
    ensures r.selected == None
    ensures SelectionListed(r) && ShowsSelection(r)
  {
    State(found, None, form)
  }

  /** The list box's select event at `index`: that reminder becomes the
      selection and its fields are pushed into the form. */
  function OnSelect(s: State, index: int): (r: State)
    requires 0 <= index < |s.list|
    ensures r.list == s.list
    ensures r.selected == Some(s.list[index])
    ensures SelectionListed(r) && ShowsSelection(r)
  {
    var picked := s.list[index];
    s.(selected := Some(picked), form := FormOf(picked))
  }

  /** The add button. With a date, a priority and a name present, a new
      reminder carrying those values is persisted under `assignedId`, the list
      is reloaded from `found` and the new reminder becomes the selection;
      otherwise nothing happens. */
  function Add(s: State, assignedId: Id, found: seq<Reminder>): (r: State)
    ensures !Complete(s.form) ==> r == s
    ensures Complete(s.form) ==>
      && r.list == found
      && r.form == s.form
      && r.selected.Some? && r.selected.value.id == assignedId
      && ShowsSelection(r)
    ensures ShowsSelection(s) ==> ShowsSelection(r)
  {
    if Complete(s.form) then
      s.(list := found, selected := Some(FromForm(assignedId, s.form)))
    else
      s
  }

  /** The update button. The form's values are written onto the selected
      reminder and `merge` is attempted. When the store no longer has the
      reminder, the item at the list box's `viewIndex` is dropped and the
      first remaining item (if any) is selected and shown. Either way the list
      ends up reloaded from `found`. Without a selection nothing happens. */
  function Update(s: State, outcome: StoreOutcome, viewIndex: int, found: seq<Reminder>): (r: State)
    requires s.selected.Some? && outcome == NotFound ==> 0 <= viewIndex < |s.list|
    ensures s.selected.None? ==> r == s
    ensures s.selected.Some? ==> r.list == found && ShowsSelection(r)
    ensures s.selected.Some? && outcome == Ok ==>
      && r.selected.Some?
      && r.selected.value.id == s.selected.value.id
      && FormOf(r.selected.value) == s.form
      && r.form == s.form
    ensures s.selected.Some? && outcome == NotFound ==>
      && (|s.list| == 1 ==> r.selected == None && r.form == s.form)
      && (|s.list| > 1 ==> r.selected == Some(if viewIndex == 0 then s.list[1] else s.list[0]))
    ensures ShowsSelection(s) ==> ShowsSelection(r)
  {
    match s.selected
    case None => s
    case Some(sel) =>
      var edited := Edit(sel, s.form);
      match outcome
      case Ok =>
        s.(list := found, selected := Some(edited))
      case NotFound =>
        var rest := RemoveAt(s.list, viewIndex);
        var recovered :=
          if |rest| > 0 then s.(list := rest, selected := Some(rest[0]), form := FormOf(rest[0]))
          else s.(list := rest, selected := None);
        recovered.(list := found)
  }

  /** The delete button. The position of the selected reminder is recorded,
      the store is asked to delete it (an already-deleted reminder is
      harmless, so `outcome` does not matter), the reminder is removed from
      the list, the recorded position is clamped to the new last position and
      the reminder there is selected and shown; an emptied list leaves
      nothing selected. Without a selection nothing happens. */
  function Delete(s: State, outcome: StoreOutcome): (r: State)
    requires SelectionListed(s)
    ensures s.selected.None? ==> r == s
    ensures s.selected.Some? && |s.list| == 0 ==> r == s.(selected := None)
    ensures s.selected.Some? && |s.list| > 0 ==>
      var i := IndexOf(s.list, s.selected.value);
      && 0 <= i < |s.list|
      && r.list == RemoveAt(s.list, i)
      && (|r.list| == 0 ==> r.selected == None && r.form == s.form)
      && (|r.list| > 0 ==>
            var j := if i < |r.list| then i else |r.list| - 1;
            r.selected == Some(r.list[j]) && r.form == FormOf(r.list[j]))
    ensures SelectionListed(r)
  {
    match s.selected
    case None => s
    case Some(sel) =>
      var index := IndexOf(s.list, sel);
      var rest := RemoveFirst(s.list, sel);
      assert |s.list| == 0 ==> rest == [];
      assert |s.list| > 0 ==> sel in s.list && 0 <= index && rest == RemoveAt(s.list, index);
      Reselect(s, rest, index)
  }

  /** The second half of `Delete`: with the list reduced to `rest`, clamp the
      recorded position to the last one and select and show the reminder
      there, or select nothing when `rest` is empty. */
  function Reselect(s: State, rest: seq<Reminder>, index: int): (r: State)
    requires |rest| > 0 ==> 0 <= index <= |rest|
    ensures r.list == rest
    ensures |rest| == 0 ==> r.selected == None && r.form == s.form
    ensures |rest| > 0 ==>
      && r.selected == Some(rest[if index < |rest| then index else |rest| - 1])
      && ShowsSelection(r)
  {
    var clamped := if index >= |rest| then |rest| - 1 else index;
    if |rest| > 0 then
      s.(list := rest, selected := Some(rest[clamped]), form := FormOf(rest[clamped]))
    else
      s.(list := rest, selected := None)
  }

  /** The reminder `Delete` selects is the deleted one's successor in the old
      list, or its predecessor when the deleted one was last. */
  lemma DeleteSelectsNeighbour(s: State, outcome: StoreOutcome)
    requires SelectionListed(s)
    requires s.selected.Some? && |s.list| > 1
    ensures
      var i := IndexOf(s.list, s.selected.value);
      Delete(s, outcome).selected == Some(if i + 1 < |s.list| then s.list[i + 1] else s.list[i - 1])
  {
    var i := IndexOf(s.list, s.selected.value);
    var r := Delete(s, outcome);
    assert r.list == RemoveAt(s.list, i);
    if i + 1 < |s.list| {
      assert r.list[i] == s.list[i + 1];
    } else {
      assert r.list[i - 1] == s.list[i - 1];
    }
  }
}
