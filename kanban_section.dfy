/**
 * The KanbanSection component's mutable state (src/App.tsx:632-676): the
 * `tasks` board and the `draggedTask` record, overwritten by the two drag
 * handlers. Each handler is specified by the pure function of module Kanban
 * that it implements, and keeps the partition invariant.
 */
module KanbanUi {
  import opened Kanban

  class KanbanSection {
    var tasks: Board
    var draggedTask: Option<Drag>

    /** The component state as a value. */
    function Snapshot(): State
      reads this
    {
      State(tasks, draggedTask)
    }

    ghost predicate Valid()
      reads this
    {
      Inv(Snapshot())
    }

    /** `useState` with the seed board and no drag in flight. */
    constructor ()
      ensures Snapshot() == Init()
      ensures Valid()
    {
      tasks := Seed();
      draggedTask := None;
      SeedIds();
    }

    /**
     * handleDragStart: records the card and the column that renders it,
     * overwriting any earlier record; the board is untouched.
     */
    method HandleDragStart(task: Card, source: Column)
      requires Valid()
      requires task in tasks.Get(source)
      modifies this
      ensures Snapshot() == DragStart(old(Snapshot()), task, source)
      ensures tasks == old(tasks) && draggedTask == Some(Drag(task, source))
      ensures Valid()
    {
      draggedTask := Some(Drag(task, source));
    }

    /**
     * handleDrop: returns at once without a pending drag; otherwise moves
     * the card when the target column differs from its source, and always
     * clears the pending drag.
     */
    method HandleDrop(target: Column)
      requires Valid()
      modifies this
      ensures Snapshot() == Drop(old(Snapshot()), target)
      ensures old(draggedTask).None? ==> tasks == old(tasks)
      ensures draggedTask == None
      ensures Valid()
    {
      if draggedTask.None? {
        return;
      }
      var Drag(task, source) := draggedTask.value;
      if source != target {
        tasks := Move(tasks, task, source, target);
      }
      draggedTask := None;
      DropKeepsInv(old(Snapshot()), target);
    }
  }
}
