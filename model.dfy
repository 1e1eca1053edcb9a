/**
 * The in-memory state of the task-list manager and what each user action does to it.
 *
 * The page keeps two globals: `lists`, the ordered lists with their tasks, and
 * `selectedListId`, a nullable key naming the selected list. Here they form a `Board`
 * value, and each handler is a function from the board before the event to the
 * board after it together with how the handler ended. The class in app.dfy holds the
 * two globals as fields and is proved to follow these functions.
 */
module Model {
  import opened Wrappers
  import opened Seqs

  datatype Task = Task(id: string, name: string, complete: bool)

  datatype TodoList = TodoList(id: string, name: string, tasks: seq<Task>)

  /** `selected == None` is a null `selectedListId`. */
  datatype Board = Board(lists: seq<TodoList>, selected: Option<string>)

  /**
   * How a handler ended: it changed the state and saved it (`Applied`), returned early
   * on an empty name (`Ignored`), or threw a TypeError by dereferencing the `undefined`
   * that `find` returned (`Threw`). Every throw happens before any assignment to
   * `lists` or `selectedListId`, so a handler that throws leaves the state as it was (the
   * add-task handler has already cleared its input field by then, app.js:81).
   */
  datatype Outcome = Applied | Ignored | Threw

  datatype Reply = Reply(board: Board, outcome: Outcome)

  /** A new list: the fresh id stands for `Date.now().toString()`. */
  function CreateList(id: string, name: string): (r: TodoList)
    ensures r.id == id && r.name == name && r.tasks == []
  {
    TodoList(id, name, [])
  }

  /** A new task, not yet complete. */
  function CreateTask(id: string, name: string): (r: Task)
    ensures r.id == id && r.name == name && !r.complete
  {
    Task(id, name, false)
  }

  /** `list.id === selectedListId`: a null selection matches no list. */
  predicate Selects(selected: Option<string>, list: TodoList)
  {
    selected == Some(list.id)
  }

  /** `lists.find(list => list.id === selectedListId)`, as the index of the list found. */
  function SelectedIndex(b: Board): (r: Option<nat>)
    ensures r.Some? ==> r.value < |b.lists| && Selects(b.selected, b.lists[r.value])
    ensures r.Some? ==> forall k :: 0 <= k < r.value ==> !Selects(b.selected, b.lists[k])
    ensures r.None? <==> forall k :: 0 <= k < |b.lists| ==> !Selects(b.selected, b.lists[k])
  {
    FindFirst(b.lists, (list: TodoList) => Selects(b.selected, list))
  }

  /** `tasks.find(task => task.id === id)`, as the index of the task found. */
  function TaskIndex(tasks: seq<Task>, id: string): (r: Option<nat>)
    ensures r.Some? ==> r.value < |tasks| && tasks[r.value].id == id
    ensures r.Some? ==> forall k :: 0 <= k < r.value ==> tasks[k].id != id
    ensures r.None? <==> forall k :: 0 <= k < |tasks| ==> tasks[k].id != id
  {
    FindFirst(tasks, (task: Task) => task.id == id)
  }

  /** `tasks.filter(task => !task.complete)`: exactly the incomplete tasks, in order. */
  function IncompleteTasks(tasks: seq<Task>): (r: seq<Task>)
    ensures forall t :: t in r <==> t in tasks && !t.complete
    ensures forall t :: multiset(r)[t] == if t.complete then 0 else multiset(tasks)[t]
    ensures IsSubsequence(r, tasks)
  {
    var keep := (task: Task) => !task.complete;
    FilterMultiset(tasks, keep);
    FilterIsSubsequence(tasks, keep);
    Filter(tasks, keep)
  }

  /** `tasks.filter(task => task.id !== id)`: every task with that id removed, the rest in order. */
  function TasksOtherThan(tasks: seq<Task>, id: string): (r: seq<Task>)
    ensures forall t :: t in r <==> t in tasks && t.id != id
    ensures forall t :: multiset(r)[t] == if t.id == id then 0 else multiset(tasks)[t]
    ensures IsSubsequence(r, tasks)
  {
    var keep := (task: Task) => task.id != id;
    FilterMultiset(tasks, keep);
    FilterIsSubsequence(tasks, keep);
    Filter(tasks, keep)
  }

  /** `lists.filter(list => list.id !== selectedListId)`: with no selection, every list stays. */
  function ListsOtherThan(lists: seq<TodoList>, selected: Option<string>): (r: seq<TodoList>)
    ensures forall l :: l in r <==> l in lists && !Selects(selected, l)
    ensures forall l :: multiset(r)[l] == if Selects(selected, l) then 0 else multiset(lists)[l]
    ensures IsSubsequence(r, lists)
    ensures selected == None ==> r == lists
  {
    var keep := (list: TodoList) => !Selects(selected, list);
    FilterMultiset(lists, keep);
    FilterIsSubsequence(lists, keep);
    assert selected == None ==> Filter(lists, keep) == lists by {
      if selected == None { FilterKeepsAll(lists, keep); }
    }
    Filter(lists, keep)
  }

  /** The board with the tasks of list `i` replaced. */
  function WithTasks(b: Board, i: nat, tasks: seq<Task>): (r: Board)
    requires i < |b.lists|
  {
    b.(lists := b.lists[i := b.lists[i].(tasks := tasks)])
  }

  /** Only the tasks of list `i` differ between `b` and `r`. */
  ghost predicate OnlyTasksOfListChanged(b: Board, r: Board, i: nat)
    requires i < |b.lists|
  {
    && r.selected == b.selected
    && |r.lists| == |b.lists|
    && (forall k :: 0 <= k < |b.lists| && k != i ==> r.lists[k] == b.lists[k])
    && r.lists[i].id == b.lists[i].id
    && r.lists[i].name == b.lists[i].name
  }

  /** Submitting the new-list form with `name` in the input. */
  function AddList(b: Board, name: string, freshId: string): (r: Reply)
    ensures r.outcome == Ignored <==> name == ""
    ensures r.outcome == Ignored ==> r.board == b
    ensures r.outcome != Ignored ==>
      && r.outcome == Applied
      && r.board.selected == b.selected
      && |r.board.lists| == |b.lists| + 1
      && r.board.lists[..|b.lists|] == b.lists
      && r.board.lists[|b.lists|] == TodoList(freshId, name, [])
  {
    if name == "" then Reply(b, Ignored)
    else Reply(b.(lists := b.lists + [CreateList(freshId, name)]), Applied)
  }

  /** Clicking a list row: the clicked id becomes the selection without any existence check. */
  function SelectList(b: Board, id: string): (r: Board)
    ensures r.lists == b.lists && r.selected == Some(id)
  {
    b.(selected := Some(id))
  }

  /** Clicking "delete list": every list with the selected id goes, and the selection is cleared. */
  function DeleteSelectedList(b: Board): (r: Board)
    ensures r.selected == None
    ensures forall l :: l in r.lists <==> l in b.lists && !Selects(b.selected, l)
    ensures forall l :: multiset(r.lists)[l] == if Selects(b.selected, l) then 0 else multiset(b.lists)[l]
    ensures IsSubsequence(r.lists, b.lists)
    ensures b.selected == None ==> r == b
  {
    Board(ListsOtherThan(b.lists, b.selected), None)
  }

  /** Submitting the new-task form: an incomplete task is appended to the selected list. */
  function AddTask(b: Board, name: string, freshId: string): (r: Reply)
    ensures r.outcome == Ignored <==> name == ""
    ensures r.outcome == Threw <==> name != "" && SelectedIndex(b).None?
    ensures r.outcome != Applied ==> r.board == b
    ensures r.outcome == Applied ==>
      && SelectedIndex(b).Some?
      && var i := SelectedIndex(b).value;
      && OnlyTasksOfListChanged(b, r.board, i)
      && r.board.lists[i].tasks == b.lists[i].tasks + [Task(freshId, name, false)]
  {
    if name == "" then Reply(b, Ignored)
    else match SelectedIndex(b)
      case None => Reply(b, Threw)
      case Some(i) => Reply(WithTasks(b, i, b.lists[i].tasks + [CreateTask(freshId, name)]), Applied)
  }

  /**
   * Clicking a task's checkbox: the first task of the selected list with that id takes the
   * checkbox's new `checked` value. A missing list or task throws.
   */
  function SetTaskComplete(b: Board, taskId: string, checked: bool): (r: Reply)
    ensures r.outcome != Ignored
    ensures r.outcome == Threw <==>
      SelectedIndex(b).None? || TaskIndex(b.lists[SelectedIndex(b).value].tasks, taskId).None?
    ensures r.outcome == Threw ==> r.board == b
    ensures r.outcome == Applied ==>
      && SelectedIndex(b).Some?
      && var i := SelectedIndex(b).value;
      && var ts := b.lists[i].tasks;
      && TaskIndex(ts, taskId).Some?
      && var j := TaskIndex(ts, taskId).value;
      && OnlyTasksOfListChanged(b, r.board, i)
      && |r.board.lists[i].tasks| == |ts|
      && r.board.lists[i].tasks[j] == Task(taskId, ts[j].name, checked)
      && (forall k :: 0 <= k < |ts| && k != j ==> r.board.lists[i].tasks[k] == ts[k])
  {
    match SelectedIndex(b)
    case None => Reply(b, Threw)
    case Some(i) =>
      var ts := b.lists[i].tasks;
      match TaskIndex(ts, taskId)
      case None => Reply(b, Threw)
      case Some(j) => Reply(WithTasks(b, i, ts[j := ts[j].(complete := checked)]), Applied)
  }

  /** Clicking a task's delete button: every task of the selected list with that id goes. */
  function DeleteTask(b: Board, taskId: string): (r: Reply)
    ensures r.outcome != Ignored
    ensures r.outcome == Threw <==> SelectedIndex(b).None?
    ensures r.outcome == Threw ==> r.board == b
    ensures r.outcome == Applied ==>
      && SelectedIndex(b).Some?
      && var i := SelectedIndex(b).value;
      && OnlyTasksOfListChanged(b, r.board, i)
      && r.board.lists[i].tasks == TasksOtherThan(b.lists[i].tasks, taskId)
  {
    match SelectedIndex(b)
    case None => Reply(b, Threw)
    case Some(i) => Reply(WithTasks(b, i, TasksOtherThan(b.lists[i].tasks, taskId)), Applied)
  }

  /** Clicking "clear completed tasks": the selected list keeps exactly its incomplete tasks. */
  function ClearCompleted(b: Board): (r: Reply)
    ensures r.outcome != Ignored
    ensures r.outcome == Threw <==> SelectedIndex(b).None?
    ensures r.outcome == Threw ==> r.board == b
    ensures r.outcome == Applied ==>
      && SelectedIndex(b).Some?
      && var i := SelectedIndex(b).value;
      && OnlyTasksOfListChanged(b, r.board, i)
      && r.board.lists[i].tasks == IncompleteTasks(b.lists[i].tasks)
  {
    match SelectedIndex(b)
    case None => Reply(b, Threw)
    case Some(i) => Reply(WithTasks(b, i, IncompleteTasks(b.lists[i].tasks)), Applied)
  }
}
