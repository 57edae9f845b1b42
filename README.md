# Task board (DragDrop.tsx) in Dafny

This project models the state of the drag-and-drop task board component `Tasks` in
`DragDrop.tsx`, and the rules that change that state or project it into views:

- **Board state** (`TaskCards`): category keys, each holding an ordered list of `Task`
  records. A board is a sequence of `Column(key, tasks)` values, so the `Object.keys`
  iteration order is explicit. `DistinctKeys` is the lone structural invariant: an object
  has no two own properties with the same key.
- **Drag end** (`onDragEnd`, `TaskBoard.DragEnd`): the drag library's result is modelled as
  an optional drop-target id and the dragged task's id. The source is the first key, in key
  order, whose list holds that id. The handler returns early in five cases: no target, an
  empty target id, no source, an empty source key (both ids are tested for falsiness), or a
  source equal to the target. Otherwise the source list drops *every* record with the id,
  and the *first* such record is appended to the target list. The `!taskToMove` return is
  modelled too, and is proved never to fire.
- **Views**: the board view has one column per key, with its title and its count
  (`BoardView`). The list view is `Object.values(taskCards).flat()` (`ListView`). Both are
  pure functions of the board.
- **Draft** (`newTask`, `handleInputChange`): each change replaces exactly the named field
  with the raw input text. The starting numbers and the empty chips list become text once
  edited, because nothing is parsed.
- **Chip colours** on the cards and in the table, and the **column title** capitalisation.
- The component itself is the class `TasksPage.Tasks`. Its fields `taskCards` and
  `newTask` are replaced by `OnDragEnd` and `HandleInputChange`, whose contracts tie the new
  state to the pure functions above.

The main results:

- A committed move appends exactly the first source record with that id to the target list.
  It removes all records with that id from the source list, keeping the order of the rest.
  Every other key keeps its list, and the key sequence itself is unchanged (`DragEndMoves`,
  `RemoveIdAppend`, `RemoveIdAt`).
- If no id occurs twice on the board, a move keeps ids unique. The list view after the move
  is then a permutation of the one before, so the task count is the same (`DragEndPermutes`).
  Without uniqueness, the count changes by one minus the number of source records with
  that id (`DragEndTotal`).
- Three behaviours of the handler are easy to misread:
  - An unknown drop target makes the spread of the target list at line 253 throw; it is not a
    no-op. The model states this as the precondition `TargetResolves`: a committed move needs
    a target that is one of the keys, which the droppable columns guarantee.
  - The source is the first key, in key order, whose list holds the id.
  - The source list loses every record with that id, while the target gains one record.

## Model

| member | source | states |
|---|---|---|
| TaskList.HasIdAppend | DragDrop.tsx:241 | `some` over two lists joined holds exactly when it holds over one of them |
| TaskList.CountId | DragDrop.tsx:241 | the number of records with an id is zero exactly when `some` finds none |
| TaskList.FindTask | DragDrop.tsx:246 | `find` gives nothing exactly when no record has the id, otherwise a record of the list with that id before which no record has it |
| TaskList.RemoveId | DragDrop.tsx:252 | `filter` shortens the list by the number of records with the id |
| TaskList.RemoveIdMembers | DragDrop.tsx:252 | `filter` keeps exactly the records whose id differs |
| TaskList.RemoveIdAppend | DragDrop.tsx:252 | filtering distributes over concatenation, so the kept records stay in their relative order |
| TaskList.RemoveIdAbsent | DragDrop.tsx:252 | filtering out an id no record carries leaves the list unchanged |
| TaskList.RemoveIdSingle | DragDrop.tsx:246-252 | when one record carries the id, filtering removes exactly the record `find` returns |
| TaskList.RemoveIdAt | DragDrop.tsx:252 | with distinct ids, filtering deletes the one record at its index and keeps the rest in order |
| TaskList.CountIdRemoveId | DragDrop.tsx:252 | after filtering, the id occurs zero times and every other id as often as before |
| TaskBoard.ListViewMembers | DragDrop.tsx:400-401 | the table rows are exactly the records held by some column's list |
| TaskBoard.UniqueIdsPairwise | DragDrop.tsx:400-401 | no id occurring twice on the board is the same as the table rows having pairwise-distinct ids |
| TaskBoard.SourceIndex | DragDrop.tsx:241 | the position of the first column whose list holds the id, or none when no list does |
| TaskBoard.SourceCategory | DragDrop.tsx:241 | the source is the first key in key order whose list holds the id, and is none exactly when no list holds it |
| TaskBoard.Commits | DragDrop.tsx:239-244 | getting past the early returns means a non-empty target was reported and a column with a non-empty key other than the target holds the id |
| TaskBoard.TargetResolves | DragDrop.tsx:250-253 | a drag with no target, or one dropped on an existing key, never reaches the throwing spread |
| TaskBoard.Reassign | DragDrop.tsx:250-254 | the new snapshot has the same keys in the same order |
| TaskBoard.DragEnd | DragDrop.tsx:236-255 | keys and their order are kept; no target, an empty target, no source, an empty source key, or a source equal to the target each leave the board unchanged |
| TaskBoard.TaskToMoveFound | DragDrop.tsx:246-248 | with distinct keys, the source list always holds the task, so the `!taskToMove` return never fires |
| TaskBoard.DragEndMoves | DragDrop.tsx:246-254 | after a committed move, the target list is its old list plus the first source record with the id, the source list is its old list without any record with the id, and every other key keeps its list |
| MoveInvariants.DragEndTotal | DragDrop.tsx:250-254 | a committed move changes the total count by one minus the number of source records with the id |
| MoveInvariants.DragEndPermutes | DragDrop.tsx:236-255 | with unique ids, a drag keeps ids unique and the list view after it is a permutation of the one before, with the same length |
| Views.ColumnTitle | DragDrop.tsx:204 | the title has the category's length, the same tail, and a first character that is the category's with ASCII lower case raised |
| Views.ColumnTitleIdempotent | DragDrop.tsx:204 | capitalising a title again changes nothing |
| Views.BoardView | DragDrop.tsx:198-216 | one column view per board column, in order, showing that column's key and list, with a count equal to the cards shown |
| Views.BoardViewMatchesListView | DragDrop.tsx:343-401 | the board view's cards, column after column, are the list view's rows in order, and the column counts add up to the row count |
| Views.BoardViewColumns | DragDrop.tsx:343-344 | one board column per key, in key order, each showing that key's list and its length as the count |
| Views.DragEndKeepsColumns | DragDrop.tsx:250-251 | a drag keeps every board column's category and title in place |
| ChipColors.CardChipStyle | DragDrop.tsx:161-162 | on a card, `UX` is green, `App` is purple, and every other chip is red |
| ChipColors.TableChipStyle | DragDrop.tsx:412-427 | in the table, `UX` is green, `App` purple, `Dashboard` cyan, and every other chip red |
| ChipColors.TableAgreesWithCard | DragDrop.tsx:412-427 | the table and the card colour a chip alike exactly when it is not `Dashboard` |
| DraftTask.ParseFieldName | DragDrop.tsx:469-524 | an input name designates a field whose name it is, and no field when it names none |
| DraftTask.FieldNameRoundTrip | DragDrop.tsx:469-524 | each input's name designates its own field |
| DraftTask.EmptyDraft | DragDrop.tsx:227-234 | the draft starts with empty title and due date, zero counters and an empty chips list |
| DraftTask.UpdateField | DragDrop.tsx:269-273 | the named field holds the raw value, and every other field keeps its value |
| DraftTask.UpdateFieldOverwrites | DragDrop.tsx:269-273 | two edits of one field keep only the last value |
| DraftTask.UpdateFieldCommutes | DragDrop.tsx:269-273 | edits of two different fields give the same draft in either order |
| TasksPage.InitialTasks | DragDrop.tsx:55-127 | the seed board's keys are pending, completed, inProgress, overdue, in that order and distinct |
| TasksPage.InitialTasksWellFormed | DragDrop.tsx:55-127 | the seed board holds seven tasks and no id twice |
| TasksPage.Tasks.constructor | DragDrop.tsx:219-234 | the component starts with the seed board, which has unique ids, and the empty draft |
| TasksPage.Tasks.OnDragEnd | DragDrop.tsx:236-255 | the board becomes the drag-end snapshot of the old board, keys stay distinct, the draft is unchanged, and unique ids stay unique with the list view permuted |
| TasksPage.Tasks.HandleInputChange | DragDrop.tsx:269-273 | the draft becomes the old draft with the field the input's name designates replaced, and the board is unchanged |
| TasksPage.MoveFirstTaskToCompleted | DragDrop.tsx:236-255 | dragging task 1 onto completed leaves pending with task 2 only, appends task 1 as the third completed task, and leaves the other two columns alone |
| TasksPage.DropOnOwnColumn | DragDrop.tsx:244 | dropping task 1 on its own column pending leaves the seed board unchanged |

## Left out

- Drag-gesture detection (`DndContext`, `useDraggable`, `useDroppable`) is a third-party library. The model takes only its result: an optional drop-target id and the dragged task's id.
- JSX and MUI rendering is presentation only: avatar repetition, icons, the dialog markup and the `styles` object.
- `handleView` is left out: it calls `router.push`, a foreign routing call.
- `handleSubmit` and the edit/delete buttons are left out: they only call `console.log` (and close the dialog), and they never touch the board or the draft.
- The dialog's open flag and the board/list view flag are plain setters. Both views are functions of the one board, so toggling between them loses nothing.
- The search field and the department, project, status and date selectors are left out: they are not wired to any state.
- The chips input is not split into labels: the raw text is stored, as the code does.
- TasksPage.Tasks.OnDragEnd: the handler reads the source and the task from the render's `taskCards` and rebuilds from the updater's `prev`. The model takes the two to be the same board, so interleaved or batched state updates are not modelled.
- TasksPage.Tasks.OnDragEnd: the dragged id is a string. dnd-kit also allows numeric ids, but every draggable here uses a task's string id, and `===` would never match a number.
- TasksPage.Tasks.HandleInputChange: requires the name to be one of the six inputs' names. A change event with any other `name` would add a new property to the draft, and that is not modelled.
- Views.ColumnTitle: upper-casing is modelled for ASCII letters only. JavaScript's `toUpperCase` also maps other letters, some of them to more than one character.
- The key order is taken as the sequence of columns. JavaScript lists integer-like keys first; the model does not derive that order, it is given.
- The task counters are `nat`, not JavaScript numbers: they are display-only and never computed with.
