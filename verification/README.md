# ZkToDo2 to-do presenter, modelled in Dafny

`ZkToDoControllerV1` is a "Passive View" presenter for a to-do window: a list
box of reminders, three inputs (name, priority, date) and add / update /
delete buttons, backed by a reminder service. This project models its
selection-and-list state machine: the state is the list model, the selected
reminder and the three form fields, and each event handler is a pure
transition function.

- `optional.dfy` — `Option`, standing in for a reference that may be null.
- `list_model.dfy` — the list model operations the presenter uses:
  `indexOf`, `remove(int)` and `remove(Object)`.
- `reminders.dfy` — `Reminder`, the `Form` of three possibly-empty inputs,
  pushing a reminder into the form and writing the form onto a reminder.
- `controller.dfy` — the state and the handlers `Compose`, `OnSelect`,
  `Add`, `Update`, `Delete`.
- `session.dfy` — sessions as event sequences (including the user typing
  into the form) and properties of whole sessions.
- `controller_properties.dfy` — properties relating several handler calls,
  and worked examples.

The service's collaborators become inputs: the `findAll` answer, the identity
`persist` assigns, the `merge`/`delete` outcome (`Ok` or `NotFound` instead
of an `EntityNotFoundException`), and the list box's selected index.

A reminder's name, priority and date are `Option`s. `update` writes the form's
values onto the selected reminder without checking them (lines 94-96). The
model takes the reminder's fields to be nullable, so a reminder can end up
with an empty field. With that choice "the form shows the selection" is plain
equality.

One might expect the selection, when present, always to be in the list. The
code does not keep that. After `add` the selection is the freshly built
reminder, whatever `findAll` returned (lines 84-87). After a successful
`update` it is the edited reminder, while the list has been reloaded (lines
113-115). `AddCanLeaveSelectionUnlisted` and `UpdateCanLeaveSelectionStale`
exhibit both cases. Because of this, the handlers that index the list state
what they need as a `requires`:
- `OnSelect`: the index is in range. With an out-of-range index `get` throws (line 65).
- `Update` when the store reports the reminder missing: the view index is in range (`remove` at line 101).
- `Delete`: the selection is in the list, or the list is empty. With an empty
  list, `indexOf` returns -1, nothing is fetched and the selection is cleared
  (lines 123-140).

## Model

| member | source | states |
|---|---|---|
| ToDoController.Compose | src/main/java/org/zkforge/zktodo2/ZkToDoControllerV1.java:45-58 | after composing, the list is exactly the store's `findAll` answer and nothing is selected, so a session starts with the selection trivially listed and shown |
| ToDoController.OnSelect | src/main/java/org/zkforge/zktodo2/ZkToDoControllerV1.java:61-70 | selecting row `index` makes `list[index]` the selection, the form then shows it, and the list is unchanged |
| ToDoController.Add | src/main/java/org/zkforge/zktodo2/ZkToDoControllerV1.java:74-89 | with any of date, priority or name missing the state is unchanged; otherwise the list becomes the `findAll` answer and the selection is a reminder with the assigned identity whose fields are exactly the form's |
| ToDoController.Update | src/main/java/org/zkforge/zktodo2/ZkToDoControllerV1.java:92-118 | no selection: no change. Otherwise the list ends equal to `findAll`. On success the selection keeps its identity and takes the form's values. On not-found the selection becomes the first item left after dropping the view's row (`list[1]` when row 0 was dropped, else `list[0]`), or nothing when the list had one item |
| ToDoController.Delete | src/main/java/org/zkforge/zktodo2/ZkToDoControllerV1.java:121-143 | no selection: no change. Otherwise the list loses exactly the item at the selection's first position `i`. The new selection is the new list's item at `min(i, size-1)` and the form shows it. An emptied list leaves nothing selected and the form untouched. A selection with an empty list is cleared |
| ToDoController.DeleteSelectsNeighbour | src/main/java/org/zkforge/zktodo2/ZkToDoControllerV1.java:123-141 | the reminder delete selects is the deleted one's successor in the old list, or its predecessor when the deleted one was last |
| ListModel.IndexOf | src/main/java/org/zkforge/zktodo2/ZkToDoControllerV1.java:123 | the result is -1 exactly when the element is absent; otherwise it is a position holding the element with no earlier occurrence |
| ListModel.RemoveFirst | src/main/java/org/zkforge/zktodo2/ZkToDoControllerV1.java:129 | removal by value agrees with removal at the position `IndexOf` finds, and leaves a list without the element unchanged |
| ListModel.RemoveAt | src/main/java/org/zkforge/zktodo2/ZkToDoControllerV1.java:101 | removal by position shortens the list by one and shifts only the later items |
| ListModel.RemoveAtOfDistinct | src/main/java/org/zkforge/zktodo2/ZkToDoControllerV1.java:101 | in a repetition-free list, removing position `i` removes every occurrence of `list[i]` and keeps the list repetition-free |
| ListModel.RemoveFirstOfDistinct | src/main/java/org/zkforge/zktodo2/ZkToDoControllerV1.java:129 | in a repetition-free list, removing an element removes every occurrence and keeps the list repetition-free |
| ListModel.IndexOfInDistinct | src/main/java/org/zkforge/zktodo2/ZkToDoControllerV1.java:123 | in a repetition-free list, `indexOf(list[i])` is `i` |
| Reminders.Edit | src/main/java/org/zkforge/zktodo2/ZkToDoControllerV1.java:94-96 | writing the form onto a reminder keeps its identity, and the reminder then shows exactly that form |
| Reminders.FromForm | src/main/java/org/zkforge/zktodo2/ZkToDoControllerV1.java:79-83 | the reminder built by `add` carries the assigned identity and exactly the form's date, priority and name, all present |
| Reminders.EditWithOwnForm | src/main/java/org/zkforge/zktodo2/ZkToDoControllerV1.java:94-96 | writing back the form a reminder shows leaves it unchanged, so pushing into the form and writing back are inverse |
| Session.Step | src/main/java/org/zkforge/zktodo2/ZkToDoControllerV1.java:61-143 | typing only changes the form; each handler keeps the form showing the selection; each list item afterwards was in the list before or in the event's `findAll` answer |
| Session.RunListIsBacked | src/main/java/org/zkforge/zktodo2/ZkToDoControllerV1.java:56-143 | no list entry is invented by the window: after any session, every list item was in the initial list or in some `findAll` answer |
| Session.SessionListIsBacked | src/main/java/org/zkforge/zktodo2/ZkToDoControllerV1.java:56-143 | in a session started by composing the window, every list item came from some `findAll` answer, the first one included |
| Session.RunKeepsSelectionShown | src/main/java/org/zkforge/zktodo2/ZkToDoControllerV1.java:61-143 | a session with no typing that starts with the form showing the selection ends with it showing the selection |
| Session.DeletingRepeatedlyEmptiesList | src/main/java/org/zkforge/zktodo2/ZkToDoControllerV1.java:121-143 | starting from a listed selection, pressing delete once per item never gets stuck and ends with an empty list and no selection |
| ControllerProperties.DeleteIgnoresStoreOutcome | src/main/java/org/zkforge/zktodo2/ZkToDoControllerV1.java:124-129 | delete has the same local effect whether the store deleted the reminder or reported it already gone |
| ControllerProperties.SelectIsIdempotent | src/main/java/org/zkforge/zktodo2/ZkToDoControllerV1.java:64-68 | selecting a row twice equals selecting it once |
| ControllerProperties.UpdateWithoutEditsKeepsSelection | src/main/java/org/zkforge/zktodo2/ZkToDoControllerV1.java:64-98 | a successful update (the store answers `Ok`) right after selecting a row, with no typing, leaves that row's reminder selected unchanged |
| ControllerProperties.UpdateIsIdempotent | src/main/java/org/zkforge/zktodo2/ZkToDoControllerV1.java:92-116 | a second successful update with the same form and store answer changes nothing |
| ControllerProperties.AddTwiceAddsTwo | src/main/java/org/zkforge/zktodo2/ZkToDoControllerV1.java:79-87 | a second add with the form unchanged builds a new reminder under the new identity `persist` assigns: it selects a reminder different from the first one, carrying the same form values, and lists the second `findAll` answer |
| ControllerProperties.DeleteRemovesSelection | src/main/java/org/zkforge/zktodo2/ZkToDoControllerV1.java:123-129 | in a repetition-free list, delete shortens the list by exactly one, removes the selected reminder entirely and keeps the list repetition-free |
| ControllerProperties.SelectThenDelete | src/main/java/org/zkforge/zktodo2/ZkToDoControllerV1.java:123-141 | selecting row `i` and deleting removes exactly row `i` and selects its successor, else the new last row, else nothing |
| ControllerProperties.AddCanLeaveSelectionUnlisted | src/main/java/org/zkforge/zktodo2/ZkToDoControllerV1.java:84-87 | after add, the selection can be missing from the reloaded list |
| ControllerProperties.UpdateCanLeaveSelectionStale | src/main/java/org/zkforge/zktodo2/ZkToDoControllerV1.java:94-115 | after a successful update, the selection can be missing from the reloaded list |
| ControllerProperties.AddIncompleteScenario | src/main/java/org/zkforge/zktodo2/ZkToDoControllerV1.java:75-78 | add with the priority box empty leaves the state unchanged |
| ControllerProperties.UpdateLostRaceScenario | src/main/java/org/zkforge/zktodo2/ZkToDoControllerV1.java:99-115 | with A, B, C listed and B selected, an update that finds B gone selects and shows A, and the list is the store's A, C |
| ControllerProperties.DeleteScenarios | src/main/java/org/zkforge/zktodo2/ZkToDoControllerV1.java:121-141 | deleting B from A, B, C selects C; deleting the only reminder leaves nothing selected |

## Left out

- `render` and its `dd-MMM-yy` date format: locale-dependent library formatting; dates stay abstract instants.
- `alert` on a lost update and the console message on a lost delete: user-facing and console output, with no effect on the state.
- ZK wiring: wired components, listener registration, `setModel`, `setItemRenderer` and `setSelectedIndex`. The list box's selected index is an input of `Update`.
- The reminder service: `ReminderService` and its `findAll`, `persist`, `merge` and `delete` are outside the modelled core. Their answers are inputs, and `EntityNotFoundException` is the `NotFound` outcome. Other failures of these calls propagate uncaught in the code and are not modelled.
- ToDoController.Update: assumes the reminder's priority is a nullable `Integer`. If `setPriority` takes a primitive `int`, an update with the priority box empty throws a `NullPointerException` at line 95, after line 94 has written the date; the model instead stores an absent priority. The `Reminder` class is outside the modelled core, and the model does not decide which reading holds.
- The `Reminder` class is outside the modelled core. Reminders use value equality with an identity field, not Java object identity and `equals`.
- Aliasing: the selected object may also be an element of the list, and `update` mutates it in place. Under value semantics the edit reaches only the selection. This is visible only in the not-found branch, when row 0 of the shortened list is that same object.
- Priority width: the integer box's 32-bit range is not modelled. The presenter does no arithmetic on priorities.
