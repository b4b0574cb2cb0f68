/** The drag-and-drop task list: reordering by splice, adding, deleting, completing and
    re-prioritising tasks. Each handler replaces the `tasks` state and reports one interaction. */
module DragDropList {
  import opened Common
  import opened Text

  datatype Priority = Low | Medium | High

  datatype Task = Task(id: string, content: string, priority: Priority, completed: bool)

  /** `items.splice(i, 1)` on a copy: the list without its element at `i`. */
  function RemoveAt<T>(s: seq<T>, i: nat): (r: seq<T>)
    requires i < |s|
    ensures |r| == |s| - 1
    ensures multiset(r) == multiset(s) - multiset{s[i]}
  {
    assert s == s[..i] + [s[i]] + s[i + 1..];
    s[..i] + s[i + 1..]
  }

  /** `items.splice(i, 0, x)`: the list with `x` placed at index `i`. */
  function InsertAt<T>(s: seq<T>, i: nat, x: T): (r: seq<T>)
    requires i <= |s|
    ensures |r| == |s| + 1 && r[i] == x
    ensures multiset(r) == multiset(s) + multiset{x}
  {
    assert s == s[..i] + s[i..];
    s[..i] + [x] + s[i..]
  }

  /** The reorder of `onDragEnd`: take the element out at `from` and put it back in at `to`. */
  function Move<T>(s: seq<T>, from: nat, to: nat): (r: seq<T>)
    requires from < |s| && to < |s|
    ensures |r| == |s| && multiset(r) == multiset(s)
    ensures r[to] == s[from]
  {
    InsertAt(RemoveAt(s, from), to, s[from])
  }

  lemma RemoveInsert<T>(s: seq<T>, i: nat, x: T)
    requires i <= |s|
    ensures RemoveAt(InsertAt(s, i, x), i) == s
  {
    var t := InsertAt(s, i, x);
    assert t[..i] == s[..i];
    assert t[i + 1..] == s[i..];
  }

  /** Every task other than the moved one keeps its place relative to the others. */
  lemma MoveKeepsOthersInOrder<T>(s: seq<T>, from: nat, to: nat)
    requires from < |s| && to < |s|
    ensures RemoveAt(Move(s, from, to), to) == RemoveAt(s, from)
  {
    RemoveInsert(RemoveAt(s, from), to, s[from]);
  }

  /** Dragging the task back from its destination to its source undoes the drag. */
  lemma MoveBack<T>(s: seq<T>, from: nat, to: nat)
    requires from < |s| && to < |s|
    ensures Move(Move(s, from, to), to, from) == s
  {
    var m := Move(s, from, to);
    MoveKeepsOthersInOrder(s, from, to);
    assert Move(m, to, from) == InsertAt(RemoveAt(s, from), from, s[from]);
    InsertRemove(s, from);
  }

  lemma InsertRemove<T>(s: seq<T>, i: nat)
    requires i < |s|
    ensures InsertAt(RemoveAt(s, i), i, s[i]) == s
  {
    var r := RemoveAt(s, i);
    assert r[..i] == s[..i];
    assert r[i..] == s[i + 1..];
    assert s == s[..i] + [s[i]] + s[i + 1..];
  }

  /** `tasks.filter(task => task.id !== id)` */
  function WithoutId(tasks: seq<Task>, id: string): (r: seq<Task>)
    ensures forall t :: t in r <==> t in tasks && t.id != id
    ensures |r| <= |tasks|
  {
    if tasks == [] then []
    else (if tasks[0].id == id then [] else [tasks[0]]) + WithoutId(tasks[1..], id)
  }

  /** Deleting works piecewise, so the remaining tasks stay in their original order. */
  lemma {:induction false} WithoutIdAppend(a: seq<Task>, b: seq<Task>, id: string)
    ensures WithoutId(a + b, id) == WithoutId(a, id) + WithoutId(b, id)
  {
    if a == [] {
      assert a + b == b;
    } else {
      assert (a + b)[1..] == a[1..] + b;
      WithoutIdAppend(a[1..], b, id);
    }
  }

  /** Deleting an id that no task has leaves the list as it is. */
  lemma {:induction false} WithoutAbsentId(tasks: seq<Task>, id: string)
    requires forall i :: 0 <= i < |tasks| ==> tasks[i].id != id
    ensures WithoutId(tasks, id) == tasks
  {
    if tasks != [] {
      WithoutAbsentId(tasks[1..], id);
    }
  }

  /** `tasks.map(task => task.id === id ? { ...task, completed: !task.completed } : task)` */
  function Toggled(tasks: seq<Task>, id: string): (r: seq<Task>)
    ensures |r| == |tasks|
    ensures forall i :: 0 <= i < |tasks| ==>
      && r[i].id == tasks[i].id && r[i].content == tasks[i].content && r[i].priority == tasks[i].priority
      && (r[i].completed != tasks[i].completed <==> tasks[i].id == id)
  {
    seq(|tasks|, i requires 0 <= i < |tasks| =>
      if tasks[i].id == id then tasks[i].(completed := !tasks[i].completed) else tasks[i])
  }

  /** Toggling the same id twice restores the list. */
  lemma ToggledTwice(tasks: seq<Task>, id: string)
    ensures Toggled(Toggled(tasks, id), id) == tasks
  {
  }

  /** `tasks.map(task => task.id === id ? { ...task, priority } : task)` */
  function WithPriority(tasks: seq<Task>, id: string, priority: Priority): (r: seq<Task>)
    ensures |r| == |tasks|
    ensures forall i :: 0 <= i < |tasks| ==>
      && r[i].id == tasks[i].id && r[i].content == tasks[i].content && r[i].completed == tasks[i].completed
      && r[i].priority == (if tasks[i].id == id then priority else tasks[i].priority)
  {
    seq(|tasks|, i requires 0 <= i < |tasks| =>
      if tasks[i].id == id then tasks[i].(priority := priority) else tasks[i])
  }

  /** Setting a priority twice keeps only the second choice. */
  lemma WithPriorityLastWins(tasks: seq<Task>, id: string, first: Priority, second: Priority)
    ensures WithPriority(WithPriority(tasks, id, first), id, second) == WithPriority(tasks, id, second)
  {
  }

  const InitialTasks: seq<Task> := [
    Task("1", "Design user interface", High, false),
    Task("2", "Implement authentication", Medium, true),
    Task("3", "Set up database", High, false),
    Task("4", "Write unit tests", Low, false),
    Task("5", "Deploy to production", Medium, false)
  ]

  /** The component's state: the task list and the text of the new-task input. */
  class TaskList {
    var tasks: seq<Task>
    var newTask: string

    constructor ()
      ensures tasks == InitialTasks && newTask == ""
    {
      tasks := InitialTasks;
      newTask := "";
    }

    /** `setNewTask` from the input's change handler. */
    method Type(text: string)
      modifies this
      ensures newTask == text && tasks == old(tasks)
    {
      newTask := text;
    }

    /** `onDragEnd`: no destination (dropped outside the list) changes nothing; otherwise the task
        at `source` moves to `destination`. The drag library only hands out in-range indices. */
    method OnDragEnd(source: nat, destination: Option<nat>) returns (event: Option<string>)
      requires source < |tasks|
      requires destination.Some? ==> destination.value < |tasks|
      modifies this
      ensures destination.None? ==> tasks == old(tasks) && event == None
      ensures destination.Some? ==> tasks == Move(old(tasks), source, destination.value) && event == Some("drag-drop")
      ensures newTask == old(newTask)
    {
      if destination.None? {
        return None;
      }
      var items := tasks;
      var reordered := items[source];
      items := items[..source] + items[source + 1..];
      items := items[..destination.value] + [reordered] + items[destination.value..];
      tasks := items;
      event := Some("drag-drop");
    }

    /** `addTask`: blank input changes nothing; otherwise the untrimmed text is appended as a new
        medium-priority, open task and the input is cleared. `id` stands for `Date.now().toString()`. */
    method AddTask(id: string) returns (event: Option<string>)
      modifies this
      ensures AllWhitespace(old(newTask)) ==> tasks == old(tasks) && newTask == old(newTask) && event == None
      ensures !AllWhitespace(old(newTask)) ==>
        && tasks == old(tasks) + [Task(id, old(newTask), Medium, false)]
        && newTask == ""
        && event == Some("add-task")
    {
      TrimEmptyIffBlank(newTask);
      if Trim(newTask) != "" {
        var task := Task(id, newTask, Medium, false);
        tasks := tasks + [task];
        newTask := "";
        event := Some("add-task");
      } else {
        event := None;
      }
    }

    /** `deleteTask` */
    method DeleteTask(id: string) returns (event: string)
      modifies this
      ensures tasks == WithoutId(old(tasks), id) && newTask == old(newTask)
      ensures event == "delete-task"
    {
      tasks := WithoutId(tasks, id);
      event := "delete-task";
    }

    /** `toggleComplete` */
    method ToggleComplete(id: string) returns (event: string)
      modifies this
      ensures tasks == Toggled(old(tasks), id) && newTask == old(newTask)
      ensures event == "toggle-complete"
    {
      tasks := Toggled(tasks, id);
      event := "toggle-complete";
    }

    /** `changePriority` */
    method ChangePriority(id: string, priority: Priority) returns (event: string)
      modifies this
      ensures tasks == WithPriority(old(tasks), id, priority) && newTask == old(newTask)
      ensures event == "change-priority"
    {
      tasks := WithPriority(tasks, id, priority);
      event := "change-priority";
    }
  }
}
