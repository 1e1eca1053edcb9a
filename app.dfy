/**
 * The page's two globals, `lists` and `selectedListId`, as the fields of one object, and
 * one method per event handler. Each method changes the fields step by step as its handler
 * does (push, filter, a field update) and is proved to end in the state, and with the
 * outcome, that the matching function of module Model gives for the state before it.
 */
module App {
  import opened Wrappers
  import opened Model
  import Render

  class TaskApp {
    var lists: seq<TodoList>
    var selectedListId: Option<string>

    /** The value of the two globals. */
    function State(): Board
      reads this
    {
      Board(lists, selectedListId)
    }

    /** Start-up, with the lists and selection read from storage given as parameters. */
    constructor (storedLists: seq<TodoList>, storedSelection: Option<string>)
      ensures State() == Board(storedLists, storedSelection)
    {
      lists := storedLists;
      selectedListId := storedSelection;
    }

    /** The new-list form was submitted with `name`; `freshId` replaces the timestamp id. */
    method AddList(name: string, freshId: string) returns (outcome: Outcome)
      modifies this
      ensures Reply(State(), outcome) == Model.AddList(old(State()), name, freshId)
    {
      if name == "" {
        return Ignored;
      }
      var list := CreateList(freshId, name);
      lists := lists + [list];
      outcome := Applied;
    }

    /** A list row was clicked. */
    method SelectList(id: string)
      modifies this
      ensures State() == Model.SelectList(old(State()), id)
    {
      selectedListId := Some(id);
    }

    /** The delete-list button was clicked. */
    method DeleteSelectedList()
      modifies this
      ensures State() == Model.DeleteSelectedList(old(State()))
    {
      lists := ListsOtherThan(lists, selectedListId);
      selectedListId := None;
    }

    /** The new-task form was submitted with `name`; `freshId` replaces the timestamp id. */
    method AddTask(name: string, freshId: string) returns (outcome: Outcome)
      modifies this
      ensures Reply(State(), outcome) == Model.AddTask(old(State()), name, freshId)
    {
      if name == "" {
        return Ignored;
      }
      var task := CreateTask(freshId, name);
      var found := SelectedIndex(State());
      if found.None? {
        return Threw;
      }
      var i := found.value;
      lists := lists[i := lists[i].(tasks := lists[i].tasks + [task])];
      outcome := Applied;
    }

    /** The checkbox of task `taskId` was clicked and is now `checked`. */
    method SetTaskComplete(taskId: string, checked: bool) returns (outcome: Outcome)
      modifies this
      ensures Reply(State(), outcome) == Model.SetTaskComplete(old(State()), taskId, checked)
    {
      var found := SelectedIndex(State());
      if found.None? {
        return Threw;
      }
      var i := found.value;
      var tasks := lists[i].tasks;
      var at := TaskIndex(tasks, taskId);
      if at.None? {
        return Threw;
      }
      var j := at.value;
      lists := lists[i := lists[i].(tasks := tasks[j := tasks[j].(complete := checked)])];
      outcome := Applied;
    }

    /** The delete button of task `taskId` was clicked. */
    method DeleteTask(taskId: string) returns (outcome: Outcome)
      modifies this
      ensures Reply(State(), outcome) == Model.DeleteTask(old(State()), taskId)
    {
      var found := SelectedIndex(State());
      if found.None? {
        return Threw;
      }
      var i := found.value;
      lists := lists[i := lists[i].(tasks := TasksOtherThan(lists[i].tasks, taskId))];
      outcome := Applied;
    }

    /** The clear-completed button was clicked. */
    method ClearCompleted() returns (outcome: Outcome)
      modifies this
      ensures Reply(State(), outcome) == Model.ClearCompleted(old(State()))
    {
      var found := SelectedIndex(State());
      if found.None? {
        return Threw;
      }
      var i := found.value;
      lists := lists[i := lists[i].(tasks := IncompleteTasks(lists[i].tasks))];
      outcome := Applied;
    }
  }

  /**
   * A session on an empty page: an empty name is ignored, then "Groceries" is created and
   * selected, and its panel shows no remaining task.
   */
  method CreateAndSelectWalkthrough()
  {
    var app := new TaskApp([], None);
    var outcome := app.AddList("", "0");
    assert outcome == Ignored && app.lists == [];

    outcome := app.AddList("Groceries", "1");
    app.SelectList("1");
    assert app.State() == Board([TodoList("1", "Groceries", [])], Some("1"));
    assert SelectedIndex(app.State()) == Some(0);
    assert Render.CountIncomplete([]) == 0;
    Render.CountLabelNearOne();
    assert Render.Panel(app.State()) == Some(Render.TaskPanel("Groceries", "0 tasks remaining"));
  }

  /** On the selected, empty "Groceries" list, "Milk" is added as an incomplete task. */
  method AddFirstTaskWalkthrough()
  {
    var app := new TaskApp([TodoList("1", "Groceries", [])], Some("1"));
    var milk := Task("2", "Milk", false);
    assert SelectedIndex(app.State()) == Some(0);
    var outcome := app.AddTask("Milk", "2");
    assert outcome == Applied && app.lists[0].tasks == [] + [milk];
    assert app.lists == [app.lists[0]] && app.selectedListId == Some("1");
    assert app.lists[0] == TodoList("1", "Groceries", [milk]);
    assert app.State() == Board([TodoList("1", "Groceries", [milk])], Some("1"));
  }

  /** With "Milk" on the list, "Eggs" is added after it: two tasks remain. */
  method AddSecondTaskWalkthrough()
  {
    var milk, eggs := Task("2", "Milk", false), Task("3", "Eggs", false);
    var app := new TaskApp([TodoList("1", "Groceries", [milk])], Some("1"));
    assert SelectedIndex(app.State()) == Some(0);
    var outcome := app.AddTask("Eggs", "3");
    assert outcome == Applied && app.lists[0].tasks == [milk] + [eggs];
    assert app.lists == [app.lists[0]] && app.selectedListId == Some("1");
    assert SelectedIndex(app.State()) == Some(0);
    assert Render.Panel(app.State()).value.remaining == Render.RemainingLabel([milk, eggs]);
    assert Render.CountIncomplete([milk, eggs]) == 2;
    Render.CountLabelNearOne();
    assert Render.RemainingLabel([milk, eggs]) == Render.CountLabel(2);
    assert Render.Panel(app.State()).value.remaining == "2 tasks remaining";
  }

  /** Of "Milk" and "Eggs", ticking "Milk" leaves one task remaining. */
  method SetTaskCompleteWalkthrough()
  {
    var milk, eggs := Task("2", "Milk", false), Task("3", "Eggs", false);
    var app := new TaskApp([TodoList("1", "Groceries", [milk, eggs])], Some("1"));
    var before := app.State();
    assert SelectedIndex(before) == Some(0);
    assert TaskIndex([milk, eggs], "2") == Some(0);
    var outcome := app.SetTaskComplete("2", true);
    assert outcome == Applied && app.lists == [app.lists[0]] && app.selectedListId == Some("1");
    var ticked := [milk.(complete := true), eggs];
    assert app.lists[0].tasks == ticked;
    assert SelectedIndex(app.State()) == Some(0);
    assert Render.Panel(app.State()).value.remaining == Render.RemainingLabel(ticked);
    assert Render.CountIncomplete([milk, eggs]) == 2;
    Render.SetTaskCompleteMovesCount(before, "2", true);
    assert Render.CountIncomplete(ticked) == 1;
    Render.CountLabelNearOne();
    assert Render.RemainingLabel(ticked) == Render.CountLabel(1);
    assert Render.Panel(app.State()).value.remaining == "1 task remaining";
  }

  /** With "Milk" ticked, ticking "Eggs" too leaves no task remaining. */
  method SetLastTaskCompleteWalkthrough()
  {
    var milk, eggs := Task("2", "Milk", true), Task("3", "Eggs", false);
    var ticked := [milk, eggs];
    var app := new TaskApp([TodoList("1", "Groceries", ticked)], Some("1"));
    assert SelectedIndex(app.State()) == Some(0);
    assert ticked[0].id != "3" && ticked[1].id == "3";
    assert TaskIndex(ticked, "3") == Some(1);
    var outcome := app.SetTaskComplete("3", true);
    assert outcome == Applied && app.lists == [app.lists[0]] && app.selectedListId == Some("1");
    var done := [milk, eggs.(complete := true)];
    assert app.lists[0].tasks == done;
    assert SelectedIndex(app.State()) == Some(0);
    assert Render.Panel(app.State()).value.remaining == Render.RemainingLabel(done);
    assert Render.CountIncomplete(done) == 0;
    Render.CountLabelNearOne();
    assert Render.RemainingLabel(done) == Render.CountLabel(0);
    assert Render.Panel(app.State()).value.remaining == "0 tasks remaining";
  }

  /** Clearing two completed tasks empties the list; deleting the list hides the panel. */
  method ClearAndDeleteWalkthrough()
  {
    var done := [Task("2", "Milk", true), Task("3", "Eggs", true)];
    var app := new TaskApp([TodoList("1", "Groceries", done)], Some("1"));
    assert SelectedIndex(app.State()) == Some(0);
    var outcome := app.ClearCompleted();
    assert outcome == Applied && app.lists == [app.lists[0]] && app.selectedListId == Some("1");
    assert app.lists[0].tasks == [] by {
      assert IncompleteTasks(done) == [];
    }

    app.DeleteSelectedList();
    assert app.lists == [] && app.selectedListId == None;
    assert Render.Panel(app.State()) == None;
  }
}
