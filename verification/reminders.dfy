/** The reminder entity and the three input fields of the to-do form.

    A reminder's fields are optional because `update` copies whatever the form
    holds onto the selected reminder without checking for absent values. */
module Reminders {
  import opened Optional

  /** Identity the store assigns when a reminder is persisted. */
  type Id = int

  /** A calendar date, kept abstract as the instant it denotes (milliseconds
      since the epoch, as `java.util.Date` holds it). */
  datatype Date = Date(millis: int)

  datatype Reminder = Reminder(
    id: Id,
    name: Option<string>,
    priority: Option<int>,
    date: Option<Date>)

  /** The name text box, priority integer box and date box; each may be empty. */
  datatype Form = Form(name: Option<string>, priority: Option<int>, date: Option<Date>)

  /** The form as it looks after a reminder's fields have been pushed into it. */
  function FormOf(r: Reminder): (f: Form) {
    Form(r.name, r.priority, r.date)
  }

  /** All three inputs hold a value: the guard of `add`. */
  predicate Complete(f: Form) {
    f.date.Some? && f.priority.Some? && f.name.Some?
  }

  /** The reminder after the form's date, priority and name have been written
      onto it: same identity, fields exactly those of the form. */
  function Edit(r: Reminder, f: Form): (e: Reminder)
    ensures e.id == r.id
    ensures FormOf(e) == f
  {
    r.(date := f.date, priority := f.priority, name := f.name)
  }

  /** A fresh reminder built from a complete form and given the identity the
      store assigned to it. */
  function FromForm(id: Id, f: Form): (r: Reminder)
    requires Complete(f)
    ensures r.id == id
    ensures FormOf(r) == f
    ensures r.name.Some? && r.priority.Some? && r.date.Some?
  {
    Reminder(id, f.name, f.priority, f.date)
  }

  /** Writing back the form a reminder shows leaves the reminder unchanged:
      together with `Edit`'s contract, `FormOf` and `Edit` are inverse. */
  lemma EditWithOwnForm(r: Reminder)
    ensures Edit(r, FormOf(r)) == r
  {
  }
}
