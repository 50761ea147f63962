/** A session of the to-do window as a sequence of events: the four handlers
    plus the user typing into the form between them. */
module Session {
  import opened Optional
  import opened Reminders
  import opened ListModel
  import opened ToDoController

  datatype Event =
    | Select(index: int)
    | AddClicked(assignedId: Id, found: seq<Reminder>)
    | UpdateClicked(outcome: StoreOutcome, viewIndex: int, found: seq<Reminder>)
    | DeleteClicked(outcome: StoreOutcome)
    | Typed(form: Form)

  /** The event's handler runs without an out-of-range list access. */
  predicate Enabled(s: State, e: Event) {
    match e
    case Select(i) => 0 <= i < |s.list|
    case UpdateClicked(o, vi, _) => s.selected.Some? && o == NotFound ==> 0 <= vi < |s.list|
    case DeleteClicked(_) => SelectionListed(s)
    case _ => true
  }

  /** One event. Every handler leaves the list either unchanged, shrunk, or
      equal to a store answer carried by the event, and a handler that acts
      leaves the form showing the selection. */
  function Step(s: State, e: Event): (r: State)
    requires Enabled(s, e)
    ensures e.Typed? ==> r == s.(form := e.form)
    ensures !e.Typed? && ShowsSelection(s) ==> ShowsSelection(r)
    ensures forall x :: x in r.list ==> x in s.list || x in StoreAnswer(e)
  {
    match e
    case Select(i) => OnSelect(s, i)
    case AddClicked(id, found) => Add(s, id, found)
    case UpdateClicked(o, vi, found) => Update(s, o, vi, found)
    case DeleteClicked(o) => Delete(s, o)
    case Typed(f) => s.(form := f)
  }

  /** The reminders the store returned to the event's `findAll`, if any. */
  function StoreAnswer(e: Event): (found: seq<Reminder>) {
    match e
    case AddClicked(_, found) => found
    case UpdateClicked(_, _, found) => found
    case _ => []
  }

  /** Every reminder some `findAll` of the session returned. */
  ghost predicate Answered(events: seq<Event>, x: Reminder) {
    exists k :: 0 <= k < |events| && x in StoreAnswer(events[k])
  }

  /** Running a session: `None` when some event's handler would index the
      list out of range. */
  function Run(s: State, events: seq<Event>): (t: Option<State>)
    decreases |events|
  {
    if |events| == 0 then Some(s)
    else if Enabled(s, events[0]) then Run(Step(s, events[0]), events[1..])
    else None
  }

  /** `n` copies of one event. */
  function Repeat(e: Event, n: nat): (es: seq<Event>)
    ensures |es| == n
    ensures forall k :: 0 <= k < n ==> es[k] == e
  {
    if n == 0 then [] else [e] + Repeat(e, n - 1)
  }

  /** No reminder is invented by the window: whatever a session ends with in
      its list was in the initial list or in some answer of the store. */
  lemma {:induction false} RunListIsBacked(s: State, events: seq<Event>, t: State, x: Reminder)
    requires Run(s, events) == Some(t)
    requires x in t.list
    ensures x in s.list || Answered(events, x)
    decreases |events|
  {
    if |events| > 0 {
      var s' := Step(s, events[0]);
      RunListIsBacked(s', events[1..], t, x);
      if Answered(events[1..], x) {
        var k :| 0 <= k < |events[1..]| && x in StoreAnswer(events[1..][k]);
        assert events[k + 1] == events[1..][k];
      } else {
        assert x in s.list || x in StoreAnswer(events[0]);
      }
    }
  }

  /** A session that starts by composing the window shows only what the
      store returned: each list item is in the `findAll` answer loaded at
      composition or in the answer of some later event. */
  lemma {:induction false} SessionListIsBacked(found: seq<Reminder>, form: Form, events: seq<Event>, t: State, x: Reminder)
    requires Run(Compose(found, form), events) == Some(t)
    requires x in t.list
    ensures x in found || Answered(events, x)
  {
    RunListIsBacked(Compose(found, form), events, t, x);
  }

  /** Without typing in between, every handler keeps the form showing the
      selection, so a session of clicks and selections started from a shown
      selection ends with one. */
  lemma {:induction false} RunKeepsSelectionShown(s: State, events: seq<Event>, t: State)
    requires ShowsSelection(s)
    requires forall k :: 0 <= k < |events| ==> !events[k].Typed?
    requires Run(s, events) == Some(t)
    ensures ShowsSelection(t)
    decreases |events|
  {
    if |events| > 0 {
      RunKeepsSelectionShown(Step(s, events[0]), events[1..], t);
    }
  }

  /** Pressing delete once per item, starting from a selection found in the
      list, always finds a selection to delete and ends with an empty list and
      nothing selected, whatever the store answers. */
  lemma {:induction false} DeletingRepeatedlyEmptiesList(s: State, o: StoreOutcome)
    requires s.selected.Some? && s.selected.value in s.list
    ensures Run(s, Repeat(DeleteClicked(o), |s.list|)).Some?
    ensures Run(s, Repeat(DeleteClicked(o), |s.list|)).value.list == []
    ensures Run(s, Repeat(DeleteClicked(o), |s.list|)).value.selected == None
    decreases |s.list|
  {
    var es := Repeat(DeleteClicked(o), |s.list|);
    var s' := Delete(s, o);
    assert Enabled(s, es[0]);
    assert es[1..] == Repeat(DeleteClicked(o), |s'.list|);
    if |s'.list| > 0 {
      DeletingRepeatedlyEmptiesList(s', o);
    }
  }
}
