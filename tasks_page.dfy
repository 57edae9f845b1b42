/**
 * The `Tasks` component's state: the board (`taskCards`) and the draft
 * (`newTask`), with the two handlers that replace them.
 */
module TasksPage {
  import opened Wrappers
  import opened TaskList
  import opened TaskBoard
  import opened MoveInvariants
  import opened DraftTask

  /** The seed board the component mounts with. */
  function InitialTasks(): (b: Board)
    ensures Keys(b) == ["pending", "completed", "inProgress", "overdue"]
    ensures DistinctKeys(b)
  {
    [ Column("pending", [
        Task("1", "Research FAQ page UX", "16 March, 2024", 4, 2, 2, ["UX"]),
        Task("2", "Design new onboarding flow", "20 March, 2024", 1, 1, 1, ["App"])]),
      Column("completed", [
        Task("3", "Finalize project report", "10 March, 2024", 3, 0, 1, ["Dashboard"]),
        Task("4", "Update style guide", "12 March, 2024", 2, 1, 2, ["UX"])]),
      Column("inProgress", [
        Task("5", "Develop new feature", "25 March, 2024", 5, 3, 2, ["App", "Deadline"]),
        Task("6", "Test application performance", "30 March, 2024", 2, 1, 1, ["UX"])]),
      Column("overdue", [
        Task("7", "Fix bugs in production", "05 March, 2024", 1, 0, 1, ["App"])]) ]
  }

  /** The seed board has seven tasks with distinct ids. */
  lemma InitialTasksWellFormed()
    ensures |ListView(InitialTasks())| == 7
    ensures UniqueIds(InitialTasks())
  {
    var b := InitialTasks();
    var all := b[0].tasks + (b[1].tasks + (b[2].tasks + (b[3].tasks + [])));
    assert ListView(b[4..]) == [];
    assert ListView(b[3..]) == b[3].tasks + ListView(b[4..]);
    assert ListView(b[2..]) == b[2].tasks + ListView(b[3..]);
    assert ListView(b[1..]) == b[1].tasks + ListView(b[2..]);
    assert ListView(b) == all;
    assert NoDuplicateIds(all);
    forall x ensures CountId(ListView(b), x) <= 1 {
      NoDuplicateIdsCountAtMostOne(all, x);
    }
  }

  class Tasks {
    var taskCards: Board
    var newTask: Draft

    /** The board is an object, so its keys are distinct. */
    ghost predicate Valid()
      reads this
    {
      DistinctKeys(taskCards)
    }

    constructor ()
      ensures Valid() && UniqueIds(taskCards)
      ensures taskCards == InitialTasks() && newTask == EmptyDraft()
    {
      taskCards := InitialTasks();
      newTask := EmptyDraft();
      InitialTasksWellFormed();
    }

    /**
     * `onDragEnd`: the drag library reports the dragged task's id and the
     * drop target's id (`None` when there is no valid target).
     */
    method OnDragEnd(over: Option<string>, activeId: string)
      requires Valid() && TargetResolves(taskCards, over, activeId)
      modifies this
      ensures Valid()
      ensures taskCards == DragEnd(old(taskCards), over, activeId)
      ensures newTask == old(newTask)
      ensures UniqueIds(old(taskCards)) ==>
        UniqueIds(taskCards) && multiset(ListView(taskCards)) == multiset(ListView(old(taskCards)))
    {
      if UniqueIds(taskCards) {
        DragEndPermutes(taskCards, over, activeId);
      }
      var next := DragEnd(taskCards, over, activeId);
      assert Keys(next) == Keys(taskCards);
      forall i, j | 0 <= i < j < |next| ensures next[i].key != next[j].key {
        assert Keys(next)[i] == Keys(taskCards)[i] && Keys(next)[j] == Keys(taskCards)[j];
      }
      taskCards := next;
    }

    /**
     * `handleInputChange`: the form input called `name`, one of the six
     * inputs of the dialog, reported its new raw value.
     */
    method HandleInputChange(name: string, value: string)
      requires Valid() && ParseFieldName(name).Some?
      modifies this
      ensures Valid()
      ensures newTask == UpdateField(old(newTask), ParseFieldName(name).value, value)
      ensures taskCards == old(taskCards)
    {
      var field := ParseFieldName(name).value;
      newTask := UpdateField(newTask, field, value);
    }
  }

  /** Task "1" is found in `pending`, the first column. */
  lemma FirstTaskSource()
    ensures SourceCategory(InitialTasks(), "1") == Some("pending")
  {
    var b := InitialTasks();
    assert b[0].tasks[0].id == "1";
    assert HasId(b[0].tasks, "1");
  }

  /** In `pending`, task "1" is the first record, and filtering it out leaves the second. */
  lemma PendingWithoutFirst()
    ensures
      var pending := InitialTasks()[0].tasks;
      && FindTask(pending, "1") == Some(pending[0])
      && RemoveId(pending, "1") == [pending[1]]
  {
    var pending := InitialTasks()[0].tasks;
    var rest := pending[1..];
    assert rest == [pending[1]] && rest[1..] == [];
  }

  /** Dragging task "1" from `pending` onto `completed` appends it there as the third task. */
  lemma MoveFirstTaskToCompleted()
    ensures
      var b := InitialTasks();
      var r := DragEnd(b, Some("completed"), "1");
      && Lookup(r, "pending") == [b[0].tasks[1]]
      && Lookup(r, "completed") == b[1].tasks + [b[0].tasks[0]]
      && Lookup(r, "inProgress") == b[2].tasks
      && Lookup(r, "overdue") == b[3].tasks
  {
    var b := InitialTasks();
    FirstTaskSource();
    LookupAt(b, 0);
    LookupAt(b, 1);
    LookupAt(b, 2);
    LookupAt(b, 3);
    PendingWithoutFirst();
    var r := DragEnd(b, Some("completed"), "1");
    DragEndMoves(b, Some("completed"), "1");
    assert Lookup(r, "inProgress") == Lookup(b, "inProgress");
    assert Lookup(r, "overdue") == Lookup(b, "overdue");
  }

  /** Dropping task "1" back onto its own column changes nothing. */
  lemma DropOnOwnColumn()
    ensures DragEnd(InitialTasks(), Some("pending"), "1") == InitialTasks()
  {
    FirstTaskSource();
  }
}
