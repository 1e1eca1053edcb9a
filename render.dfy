/**
 * What the page shows for a board: one row per list with the selected one marked active,
 * and, when the selection names a list, the task panel with its title and the
 * "n task(s) remaining" label. Only the computed values are modelled, not the DOM writes.
 */
module Render {
  import opened Wrappers
  import opened Seqs
  import opened Model

  /** The number of tasks with `complete === false`. */
  function CountIncomplete(tasks: seq<Task>): (n: nat)
    ensures n <= |tasks|
    ensures n == 0 <==> forall t :: t in tasks ==> t.complete
    ensures n == |tasks| <==> forall t :: t in tasks ==> !t.complete
  {
    FilterKeepsAllIff(tasks, (task: Task) => !task.complete);
    assert IncompleteTasks(tasks) == Filter(tasks, (task: Task) => !task.complete);
    |IncompleteTasks(tasks)|
  }

  predicate IsDigit(c: char)
  {
    '0' <= c <= '9'
  }

  /** Decimal notation of a natural number, as a template literal writes it. */
  function Decimal(n: nat): (s: string)
    ensures |s| >= 1
    ensures forall c :: c in s ==> IsDigit(c)
    ensures s[0] == '0' ==> n == 0 && s == "0"
    decreases n
  {
    var last := ['0' + (n % 10) as char];
    if n < 10 then last else Decimal(n / 10) + last
  }

  /** The number a string of decimal digits denotes. */
  function DigitsValue(s: string): nat
    requires forall c :: c in s ==> IsDigit(c)
  {
    if s == [] then 0
    else
      var last := s[|s| - 1];
      assert last in s && IsDigit(last);
      DigitsValue(s[..|s| - 1]) * 10 + (last as int - '0' as int)
  }

  /** Reading the digits back gives the number. */
  lemma {:induction false} DecimalRoundTrip(n: nat)
    ensures DigitsValue(Decimal(n)) == n
    decreases n
  {
    var s := Decimal(n);
    if n >= 10 {
      DecimalRoundTrip(n / 10);
      assert s[..|s| - 1] == Decimal(n / 10);
    }
  }

  /** "task" for exactly one, "tasks" otherwise. */
  function TaskWord(n: nat): string
  {
    if n == 1 then "task" else "tasks"
  }

  /** How many characters at the start of `s` are digits. */
  function LeadingDigits(s: string): (k: nat)
    ensures k <= |s|
    ensures forall i :: 0 <= i < k ==> IsDigit(s[i])
    ensures k < |s| ==> !IsDigit(s[k])
  {
    if s == [] || !IsDigit(s[0]) then 0 else 1 + LeadingDigits(s[1..])
  }

  lemma {:induction false} LeadingDigitsOfNumber(d: string, rest: string)
    requires forall c :: c in d ==> IsDigit(c)
    requires rest != [] && !IsDigit(rest[0])
    ensures LeadingDigits(d + rest) == |d|
  {
    if d != [] {
      LeadingDigitsOfNumber(d[1..], rest);
      assert (d + rest)[1..] == d[1..] + rest;
    } else {
      assert d + rest == rest;
    }
  }

  /** The words after the count: " task remaining" exactly for one. */
  function CountWords(n: nat): (w: string)
    ensures w == " task remaining" <==> n == 1
    ensures w == " tasks remaining" <==> n != 1
  {
    " " + TaskWord(n) + " remaining"
  }

  /** The remaining-count label for a count: the count in decimal, then the words. */
  function CountLabel(n: nat): string
  {
    Decimal(n) + CountWords(n)
  }

  /**
   * A reader of the label recovers the count: its leading digits are exactly the decimal
   * digits of the count and denote it, and the words after them are the singular or plural.
   */
  lemma CountLabelReadsBack(n: nat)
    ensures var text := CountLabel(n);
      && LeadingDigits(text) == |Decimal(n)|
      && DigitsValue(text[..LeadingDigits(text)]) == n
      && (text[LeadingDigits(text)..] == " task remaining" <==> n == 1)
      && (text[LeadingDigits(text)..] == " tasks remaining" <==> n != 1)
  {
    var d, w := Decimal(n), CountWords(n);
    assert w[0] == ' ';
    LeadingDigitsOfNumber(d, w);
    assert (d + w)[..|d|] == d && (d + w)[|d|..] == w;
    DecimalRoundTrip(n);
  }

  /** Different counts give different labels. */
  lemma CountLabelInjective(m: nat, n: nat)
    ensures CountLabel(m) == CountLabel(n) ==> m == n
  {
    if CountLabel(m) == CountLabel(n) {
      CountLabelReadsBack(m);
      CountLabelReadsBack(n);
    }
  }

  /** `renderTaskCount`: the text of the remaining-count label for a list's tasks. */
  function RemainingLabel(tasks: seq<Task>): string
  {
    CountLabel(CountIncomplete(tasks))
  }

  /**
   * The label's leading digits read back as the number of incomplete tasks, and the rest
   * reads " task remaining" exactly when that number is one.
   */
  lemma RemainingLabelReadsBack(tasks: seq<Task>)
    ensures var text := RemainingLabel(tasks);
      && var k := LeadingDigits(text);
      && DigitsValue(text[..k]) == CountIncomplete(tasks)
      && (text[k..] == " task remaining" <==> CountIncomplete(tasks) == 1)
      && (text[k..] == " tasks remaining" <==> CountIncomplete(tasks) != 1)
  {
    CountLabelReadsBack(CountIncomplete(tasks));
  }

  /** The labels around the singular: zero and two take "tasks", one takes "task". */
  lemma CountLabelNearOne()
    ensures CountLabel(0) == "0 tasks remaining"
    ensures CountLabel(1) == "1 task remaining"
    ensures CountLabel(2) == "2 tasks remaining"
  {
    CountLabelZero();
    CountLabelOne();
    CountLabelTwo();
  }

  /** The label for zero. */
  lemma CountLabelZero()
    ensures CountLabel(0) == "0 tasks remaining"
  {
    assert Decimal(0) == "0" && CountWords(0) == " tasks remaining";
  }

  /** The label for one. */
  lemma CountLabelOne()
    ensures CountLabel(1) == "1 task remaining"
  {
    assert Decimal(1) == "1" && CountWords(1) == " task remaining";
  }

  /** The label for two. */
  lemma CountLabelTwo()
    ensures CountLabel(2) == "2 tasks remaining"
  {
    assert Decimal(2) == "2" && CountWords(2) == " tasks remaining";
  }

  /** A row of the list of lists: `<li data-list-id>` with the `active-list` class or not. */
  datatype ListRow = ListRow(id: string, name: string, active: bool)

  /** `renderLists`: one row per list, in order, active exactly when its id is the selection. */
  function ListRows(b: Board): (rows: seq<ListRow>)
    ensures |rows| == |b.lists|
    ensures forall k :: 0 <= k < |rows| ==>
      && rows[k].id == b.lists[k].id
      && rows[k].name == b.lists[k].name
      && (rows[k].active <==> Selects(b.selected, b.lists[k]))
  {
    seq(|b.lists|, k requires 0 <= k < |b.lists| =>
      ListRow(b.lists[k].id, b.lists[k].name, Selects(b.selected, b.lists[k])))
  }

  /** The task panel `render` fills in: the list's name as title and the remaining-count label. */
  datatype TaskPanel = TaskPanel(title: string, remaining: string)

  /** `render`: the panel of the list `find` returns for the selection; hidden (None) otherwise. */
  function Panel(b: Board): (p: Option<TaskPanel>)
    ensures p.Some? <==> exists l :: l in b.lists && Selects(b.selected, l)
    ensures p.Some? ==> exists k :: (
      && 0 <= k < |b.lists|
      && Selects(b.selected, b.lists[k])
      && (forall j :: 0 <= j < k ==> !Selects(b.selected, b.lists[j]))
      && p.value == TaskPanel(b.lists[k].name, RemainingLabel(b.lists[k].tasks)))
  {
    match SelectedIndex(b)
    case None => None
    case Some(i) =>
      var list := b.lists[i];
      Some(TaskPanel(list.name, RemainingLabel(list.tasks)))
  }

  /** Some list row is marked active exactly when the task panel is shown. */
  lemma ActiveRowIffPanelShown(b: Board)
    ensures (exists k :: 0 <= k < |b.lists| && ListRows(b)[k].active) <==> Panel(b).Some?
  {
    var rows := ListRows(b);
    if Panel(b).Some? {
      var l :| l in b.lists && Selects(b.selected, l);
      var k :| 0 <= k < |b.lists| && b.lists[k] == l;
      assert rows[k].active;
    }
    if exists k :: 0 <= k < |b.lists| && rows[k].active {
      var k :| 0 <= k < |b.lists| && rows[k].active;
      assert b.lists[k] in b.lists;
    }
  }

  /** When list ids are distinct, at most one row is active. */
  lemma AtMostOneActiveRow(b: Board, j: nat, k: nat)
    requires forall x, y :: 0 <= x < y < |b.lists| ==> b.lists[x].id != b.lists[y].id
    requires j < |b.lists| && k < |b.lists|
    requires ListRows(b)[j].active && ListRows(b)[k].active
    ensures j == k
  {
  }

  /** After the selected list is deleted, the panel is hidden and no row is active. */
  lemma DeleteSelectedListHidesPanel(b: Board)
    ensures Panel(DeleteSelectedList(b)).None?
    ensures forall row :: row in ListRows(DeleteSelectedList(b)) ==> !row.active
  {
  }

  /**
   * Selecting an existing id shows the panel of the first list with that id;
   * selecting an id no list has hides it.
   */
  lemma SelectListShowsPanel(b: Board, id: string)
    ensures (exists l :: l in b.lists && l.id == id) <==> Panel(SelectList(b, id)).Some?
    ensures forall k ::
      (0 <= k < |b.lists| && b.lists[k].id == id && forall j :: 0 <= j < k ==> b.lists[j].id != id) ==>
      Panel(SelectList(b, id)) == Some(TaskPanel(b.lists[k].name, RemainingLabel(b.lists[k].tasks)))
  {
  }

  /** Adding a task to the selected list raises its remaining count by one. */
  lemma AddTaskRaisesCount(b: Board, name: string, freshId: string)
    requires AddTask(b, name, freshId).outcome == Applied
    ensures var i := SelectedIndex(b).value;
      CountIncomplete(AddTask(b, name, freshId).board.lists[i].tasks) == CountIncomplete(b.lists[i].tasks) + 1
  {
    var i := SelectedIndex(b).value;
    var keep := (task: Task) => !task.complete;
    FilterAppend(b.lists[i].tasks, [Task(freshId, name, false)], keep);
  }

  /**
   * Setting a task's checkbox moves the remaining count by one when the task changes state
   * (down when it becomes complete, up when it becomes incomplete) and leaves it otherwise.
   */
  lemma SetTaskCompleteMovesCount(b: Board, taskId: string, checked: bool)
    requires SetTaskComplete(b, taskId, checked).outcome == Applied
    ensures var i := SelectedIndex(b).value;
      var ts := b.lists[i].tasks;
      var was := ts[TaskIndex(ts, taskId).value].complete;
      var after := CountIncomplete(SetTaskComplete(b, taskId, checked).board.lists[i].tasks);
      && (was == checked ==> after == CountIncomplete(ts))
      && (!was && checked ==> after == CountIncomplete(ts) - 1)
      && (was && !checked ==> after == CountIncomplete(ts) + 1)
  {
    var i := SelectedIndex(b).value;
    var ts := b.lists[i].tasks;
    var j := TaskIndex(ts, taskId).value;
    FilterUpdateLength(ts, j, ts[j].(complete := checked), (task: Task) => !task.complete);
  }

  /** Clearing completed tasks keeps the remaining count, which then counts every task left. */
  lemma ClearCompletedKeepsCount(b: Board)
    requires ClearCompleted(b).outcome == Applied
    ensures var i := SelectedIndex(b).value;
      var after := ClearCompleted(b).board.lists[i].tasks;
      CountIncomplete(after) == CountIncomplete(b.lists[i].tasks) == |after|
  {
  }

  /** Deleting tasks never raises the remaining count. */
  lemma DeleteTaskNeverRaisesCount(b: Board, taskId: string)
    requires DeleteTask(b, taskId).outcome == Applied
    ensures var i := SelectedIndex(b).value;
      CountIncomplete(DeleteTask(b, taskId).board.lists[i].tasks) <= CountIncomplete(b.lists[i].tasks)
  {
    var i := SelectedIndex(b).value;
    var ts := b.lists[i].tasks;
    FilterCommutes(ts, (task: Task) => task.id != taskId, (task: Task) => !task.complete);
  }
}
