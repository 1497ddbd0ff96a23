# Oxen landing page: Kanban demo board and tour carousel

The Oxen website is a single-page marketing site for a textile-industry
management product. Almost all of it is markup and animation. It holds two
pieces of state logic, and this project models both:

- **KanbanSection**: a decorative drag-and-drop board. It has four fixed
  columns (`pending`, `inProgress`, `review`, `completed`). Each column holds
  an ordered list of task cards `{id, title, priority}`, seeded with ids 1..9.
  A pending drag record `(task, source)` is set by `handleDragStart`.
  `handleDrop(target)` does three things:
  - it returns at once when no drag is pending;
  - otherwise, if `source !== target`, it filters the card's id out of
    `source` and appends the captured card to `target`;
  - it always clears the pending drag.
- **DemoCarousel**: the index of the shown step in a ten-step guided tour.
  The previous and next buttons clamp the index with `Math.max` and
  `Math.min`. One dot per step sets the index directly.

Layout:

- `kanban.dfy`, module `Kanban`: the board as values. It has the cards, the
  column enum, the `Board` datatype (`Get` reads a column; `With` is the
  object spread `{...prev, [c]: s}`), the `filter` (`Without`), the move, and
  the two handlers as pure functions over the component state. Beside them
  are the lemmas. The partition invariant `Inv` says three things:
  - every seed card is still on the board exactly as often as at the start;
  - every id is held as often as at the start;
  - the board holds nine cards, and a pending drag names a card that is
    still in its source column.

  `RunKeepsInv` proves `Inv` after any admissible sequence of drag starts
  and drops: one in which every drag start names a card that its column
  holds. Every drag start the page fires is admissible, because the handler
  is attached to each card a column renders (src/App.tsx:722).
  `ReachablePartition` derives the partition from it.
- `kanban_section.dfy`, module `KanbanUi`: the component as a class. Its
  fields `tasks` and `draggedTask` are overwritten by `HandleDragStart` and
  `HandleDrop`. Each method is proved equal to the pure handler and to keep
  `Inv`.
- `carousel.dfy`, module `Carousel`: the step list, the two clamps as
  functions, and the `DemoCarousel` class. Its methods keep the index inside
  the list.

Notes on the code's behaviour:

- There is no cancel operation. The code has no drag-end handler, so an
  abandoned drag leaves `draggedTask` set until the next drag start
  overwrites it, and a later drop on a column moves that stale card. `Inv`
  shows this is harmless: the recorded card is still in its source column,
  because only a drop changes the board and every drop clears the record.
- A drop target is always one of the four column ids the board renders
  (src/App.tsx:703), so `Column` is an enum and there is no invalid-target
  branch.
- `handleDragStart` does not check that the card is in the column it names.
  This holds because the handler is attached to each card a column renders
  (src/App.tsx:722). The model states it as a `requires` on
  `HandleDragStart`, and as `Enabled` for event sequences.
- The code removes by id (`filter`) but appends the captured card object.
  `Inv` keeps every id unique, so the filter removes exactly the dragged
  card (`WithoutDropsOnlyAt`).

## Model

| member | source | states |
|---|---|---|
| `Kanban.Board.With` | src/App.tsx:669-673 | the spread `{...prev, [c]: s}`: column `c` becomes `s` and every other column keeps its cards |
| `Kanban.Without` | src/App.tsx:671 | `filter(t => t.id !== id)`: no card with the id is left, every other id keeps its count, and the length drops by the number of cards that had the id |
| `Kanban.WithoutMembers` | src/App.tsx:671 | the filter keeps exactly the cards whose id differs |
| `Kanban.WithoutAbsent` | src/App.tsx:671 | filtering out an id that no card has leaves the column unchanged |
| `Kanban.WithoutAppend` | src/App.tsx:671 | the filter distributes over concatenation, so the cards it keeps stay in their order |
| `Kanban.OccurrencesWithout` | src/App.tsx:671 | the filter drops every copy of a card with the id, however many, and keeps every other card exactly as often as it was there |
| `Kanban.WithoutDropsOnlyAt` | src/App.tsx:671 | when the id of the card at position k occurs once, the filter removes exactly that position and keeps the remaining cards in order |
| `Kanban.Move` | src/App.tsx:669-673 | the `setTasks` update: after a move to another column, the card's id is absent from the source, the target is its old cards followed by the card, and the other two columns are unchanged; `MoveRemovesOne` gives the exact removal and the `MoveKeeps` lemmas what it preserves |
| `Kanban.MoveRemovesOne` | src/App.tsx:671-672 | when the card is in the source and its id occurs there once, the source shrinks by one and is the old source with that one position removed, and the target grows by one |
| `Kanban.MoveKeepsCards` | src/App.tsx:669-673 | a move keeps the number of copies of every card on the board |
| `Kanban.MoveKeepsIds` | src/App.tsx:669-673 | a move keeps the number of cards carrying each id |
| `Kanban.MoveKeepsSize` | src/App.tsx:669-673 | a move keeps the total number of cards |
| `Kanban.Seed` | src/App.tsx:633-651 | the initial `tasks`: three pending cards and two in each other column, every id in 1..9 (`SeedIds` shows each id occurs once) |
| `Kanban.Init` | src/App.tsx:633-653 | the first render's state: the seed board, `draggedTask` null, and the invariant holding |
| `Kanban.DragStart` | src/App.tsx:655-657 | `setDraggedTask({ task, source })`: the board is untouched and the pending drag becomes this card and column, whatever was there before (`DragStartOverwrites`, `DragStartKeepsInv`) |
| `Kanban.Drop` | src/App.tsx:663-676 | every drop clears the pending drag, and only the dragged card's source column and the target column can change; `DropWithoutDrag`, `DropOnSource` and `DropOnOtherColumn` give each branch exactly |
| `Kanban.SeedIds` | src/App.tsx:633-653 | the seed board holds nine cards with ids 1..9, once each, and the initial state (no drag pending) satisfies the invariant |
| `Kanban.DragStartKeepsInv` | src/App.tsx:655-657 | recording a drag on a card its column renders keeps the invariant |
| `Kanban.DropKeepsInv` | src/App.tsx:663-676 | every drop keeps the invariant |
| `Kanban.RunKeepsInv` | src/App.tsx:632-676 | the invariant holds after any admissible sequence of drag starts and drops |
| `Kanban.ExactlyOneColumn` | src/App.tsx:671-672 | an id held once on the board is in exactly one column, and appears there once |
| `Kanban.ReachablePartition` | src/App.tsx:633-676 | from the seed board, after any admissible sequence of drag starts and drops (every drag start names a card its column holds, as the render guarantees): every seed card is still present, there are nine cards, each id 1..9 is held once and no other id appears, and each id 1..9 is in exactly one column |
| `Kanban.DropWithoutDrag` | src/App.tsx:665 | a drop with no pending drag changes neither the board nor the pending state |
| `Kanban.DropOnSource` | src/App.tsx:668-675 | a drop onto the card's own column leaves every column as it was and clears the drag |
| `Kanban.DropOnOtherColumn` | src/App.tsx:667-675 | under the invariant, a drop onto another column has five effects: (1) the card's id leaves the source; (2) the source loses exactly that card and keeps the order of the rest; (3) the card becomes the last card of the target, after its old cards; (4) the other two columns are unchanged; (5) the drag is cleared |
| `Kanban.DropTwice` | src/App.tsx:665-675 | every drop clears the pending drag, so a second drop in a row changes nothing |
| `Kanban.DragStartOverwrites` | src/App.tsx:655-657 | a drag start leaves the board unchanged and replaces any earlier pending drag (last writer wins) |
| `Kanban.SeedMoveCardTwo` | src/App.tsx:633-676 | dragging card 2 from pending to in-progress on the seed board gives pending [1, 3] and in-progress [4, 5, 2], and leaves the other columns unchanged |
| `KanbanUi.KanbanSection.constructor` | src/App.tsx:633-653 | the component starts with the seed board, no pending drag, and the invariant |
| `KanbanUi.KanbanSection.HandleDragStart` | src/App.tsx:655-657 | sets `draggedTask` to the card and its column, leaves `tasks` unchanged, and keeps the invariant |
| `KanbanUi.KanbanSection.HandleDrop` | src/App.tsx:663-676 | the new state is the pure drop of the old one: unchanged without a pending drag, and the drag is cleared afterwards; keeps the invariant |
| `Carousel.Steps` | src/App.tsx:459-470 | the tour has ten slides, from "Dashboard" to "Configuración" |
| `Carousel.PrevStep` | src/App.tsx:510 | `Math.max(0, i - 1)` is never negative, is 0 or i - 1, and stays inside the step list for an index inside it |
| `Carousel.NextStep` | src/App.tsx:512 | `Math.min(count - 1, i + 1)` never passes the last index, is the last index or i + 1, and stays inside the list for an index inside it |
| `Carousel.ClampsAtEnds` | src/App.tsx:510-512 | previous at step 0 stays at 0 and next at the last step stays there; elsewhere each moves by one, and each undoes the other |
| `Carousel.DemoCarousel.constructor` | src/App.tsx:458 | the tour opens at step 0, inside the list |
| `Carousel.DemoCarousel.Previous` | src/App.tsx:510 | the index becomes the clamped previous index and stays inside the list |
| `Carousel.DemoCarousel.Next` | src/App.tsx:512 | the index becomes the clamped next index and stays inside the list |
| `Carousel.DemoCarousel.Jump` | src/App.tsx:505-506 | a dot sets the index to its own step, which is inside the list |

## Left out

- Rendering, styling, framer-motion animation and scroll transforms. These
  are presentation only.
- `handleDragOver` (src/App.tsx:659-661). It only calls `preventDefault` on
  a browser event.
- The drag events themselves are left out: which element the pointer is
  over, and drags that start outside the board. A drop is modelled by the
  column it lands on.
- The `disabled` flags on the previous and next buttons (src/App.tsx:510,
  512) are left out. The clamps are modelled as written, so pressing a
  button at either end is allowed and leaves the index in place.
- The navigation scroll listener, the mobile-menu and pricing-plan toggles,
  and the contact form's WhatsApp hand-off (`encodeURIComponent`,
  `window.open`, `setTimeout`). These are browser I/O or a single boolean
  with no invariant.
- src/main.tsx, the React root bootstrap and analytics import, is not part
  of this model.
- JavaScript numbers are modelled as unbounded integers. Card ids and step
  indices are small constants, so no overflow can occur.
