/** Laws relating the handlers to one another. */
module Laws {
  import opened Wrappers
  import opened Seqs
  import opened Model

  /** Boards whose lists carry the same ids, in the same positions, under the same selection. */
  ghost predicate SameIds(b: Board, c: Board)
  {
    && b.selected == c.selected
    && |b.lists| == |c.lists|
    && forall k :: 0 <= k < |b.lists| ==> b.lists[k].id == c.lists[k].id
  }

  /** `find` by id sees only ids, so it finds the same position on both boards. */
  lemma SelectedIndexByIds(b: Board, c: Board)
    requires SameIds(b, c)
    ensures SelectedIndex(b) == SelectedIndex(c)
  {
  }

  /** Adding a task leaves every list id and the selection as they were, so `find` finds the same list. */
  lemma AddTaskKeepsIds(b: Board, name: string, freshId: string)
    ensures SameIds(b, AddTask(b, name, freshId).board)
    ensures SelectedIndex(AddTask(b, name, freshId).board) == SelectedIndex(b)
  {
    SelectedIndexByIds(b, AddTask(b, name, freshId).board);
  }

  /** Setting a task's checkbox leaves every list id and the selection as they were, so `find` finds the same list. */
  lemma SetTaskCompleteKeepsIds(b: Board, taskId: string, checked: bool)
    ensures SameIds(b, SetTaskComplete(b, taskId, checked).board)
    ensures SelectedIndex(SetTaskComplete(b, taskId, checked).board) == SelectedIndex(b)
  {
    SelectedIndexByIds(b, SetTaskComplete(b, taskId, checked).board);
  }

  /** Deleting a task leaves every list id and the selection as they were, so `find` finds the same list. */
  lemma DeleteTaskKeepsIds(b: Board, taskId: string)
    ensures SameIds(b, DeleteTask(b, taskId).board)
    ensures SelectedIndex(DeleteTask(b, taskId).board) == SelectedIndex(b)
  {
    SelectedIndexByIds(b, DeleteTask(b, taskId).board);
  }

  /** Clearing completed tasks leaves every list id and the selection as they were, so `find` finds the same list. */
  lemma ClearCompletedKeepsIds(b: Board)
    ensures SameIds(b, ClearCompleted(b).board)
    ensures SelectedIndex(ClearCompleted(b).board) == SelectedIndex(b)
  {
    SelectedIndexByIds(b, ClearCompleted(b).board);
  }

  /** Clearing completed tasks a second time changes nothing. */
  lemma ClearCompletedIdempotent(b: Board)
    ensures ClearCompleted(ClearCompleted(b).board) == ClearCompleted(b)
  {
    var r := ClearCompleted(b);
    ClearCompletedKeepsIds(b);
    if r.outcome == Applied {
      var i := SelectedIndex(b).value;
      var ts := b.lists[i].tasks;
      FilterIdempotent(ts, (task: Task) => !task.complete);
      assert IncompleteTasks(IncompleteTasks(ts)) == IncompleteTasks(ts);
      assert WithTasks(r.board, i, IncompleteTasks(r.board.lists[i].tasks)) == r.board;
    }
  }

  /** The selection names an existing list, or nothing at all. */
  ghost predicate SelectionResolves(b: Board)
  {
    b.selected == None || SelectedIndex(b).Some?
  }

  /** Adding a list or a task, toggling, deleting a task or clearing keeps the selection resolving. */
  lemma HandlersKeepSelectionResolved(b: Board, name: string, freshId: string, taskId: string, checked: bool)
    requires SelectionResolves(b)
    ensures SelectionResolves(AddList(b, name, freshId).board)
    ensures SelectionResolves(AddTask(b, name, freshId).board)
    ensures SelectionResolves(SetTaskComplete(b, taskId, checked).board)
    ensures SelectionResolves(DeleteTask(b, taskId).board)
    ensures SelectionResolves(ClearCompleted(b).board)
  {
  }

  /** Selecting resolves exactly when some list has the clicked id: there is no existence check. */
  lemma SelectListResolvesIff(b: Board, id: string)
    ensures SelectionResolves(SelectList(b, id)) <==> exists l :: l in b.lists && l.id == id
  {
  }
}
