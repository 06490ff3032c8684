/**
 The todo-list aggregate: an owner and an ordered list of tasks. Tasks are
 looked up by name, and every by-name operation acts on the FIRST task with
 that name; names need not be unique.
 */
module TodoState {
  import opened Base
  import opened CosmWasm

  datatype Task = Task(name: string, description: string, completed: bool)

  datatype TodoList = TodoList(tasks: seq<Task>, owner: Addr)

  /** `Task::new`: a task is created not completed. */
  function NewTask(name: string, description: string): Task
  {
    Task(name, description, false)
  }

  /** `Task::update`: rewrites both text fields and keeps the flag. */
  function UpdateFields(t: Task, name: string, description: string): Task
  {
    t.(name := name, description := description)
  }

  /** `Task::done`: sets the flag and keeps both text fields. */
  function Done(t: Task, completed: bool): Task
  {
    t.(completed := completed)
  }

  /** No task of `tasks` is named `name`. */
  ghost predicate Absent(tasks: seq<Task>, name: string)
  {
    forall j :: 0 <= j < |tasks| ==> tasks[j].name != name
  }

  /** `i` is the index of the first task named `name`. */
  ghost predicate IsFirstMatch(tasks: seq<Task>, name: string, i: int)
  {
    && 0 <= i < |tasks|
    && tasks[i].name == name
    && forall j :: 0 <= j < i ==> tasks[j].name != name
  }

  /** `iter().position(|x| *x.name == name)`: the index of the first task named `name`. */
  function Position(tasks: seq<Task>, name: string): (r: Option<nat>)
    ensures r.Some? ==> IsFirstMatch(tasks, name, r.value)
    ensures r.None? <==> Absent(tasks, name)
  {
    if |tasks| == 0 then None
    else if tasks[0].name == name then Some(0)
    else
      match Position(tasks[1..], name)
      case None => None
      case Some(i) => Some(i + 1)
  }

  /** There is at most one first match, so `Position` finds every one there is. */
  lemma FirstMatchUnique(tasks: seq<Task>, name: string, i: int, k: int)
    requires IsFirstMatch(tasks, name, i) && IsFirstMatch(tasks, name, k)
    ensures i == k
  {
  }

  /** `TodoList::init`: the caller owns a list holding the one seed task. */
  function Init(addr: Addr, name: string, description: string): (l: TodoList)
    ensures l.owner == addr
    ensures |l.tasks| == 1
    ensures l.tasks[0].name == name && l.tasks[0].description == description
    ensures !l.tasks[0].completed
  {
    TodoList([NewTask(name, description)], addr)
  }

  /** `TodoList::add_task`: appends a fresh task, whether or not its name is taken. */
  function AddTask(l: TodoList, name: string, description: string): (r: TodoList)
    ensures r.owner == l.owner
    ensures |r.tasks| == |l.tasks| + 1
    ensures r.tasks[..|l.tasks|] == l.tasks
    ensures r.tasks[|l.tasks|].name == name && r.tasks[|l.tasks|].description == description
    ensures !r.tasks[|l.tasks|].completed
  {
    l.(tasks := l.tasks + [NewTask(name, description)])
  }

  /** `TodoList::delete_task`: removes the first task named `name`, if there is one. */
  function DeleteTask(l: TodoList, name: string): (r: TodoList)
    ensures r.owner == l.owner
    ensures Absent(l.tasks, name) ==> r == l
    ensures forall i :: IsFirstMatch(l.tasks, name, i) ==>
              r.tasks == l.tasks[..i] + l.tasks[i + 1..]
  {
    match Position(l.tasks, name)
    case None => l
    case Some(pos) =>
      assert forall i :: IsFirstMatch(l.tasks, name, i) ==> i == pos by {
        forall i | IsFirstMatch(l.tasks, name, i) {
          FirstMatchUnique(l.tasks, name, i, pos);
        }
      }
      l.(tasks := l.tasks[..pos] + l.tasks[pos + 1..])
  }

  /** `TodoList::reset`: the list becomes empty; the owner stays. */
  function Reset(l: TodoList): (r: TodoList)
    ensures r.owner == l.owner
    ensures |r.tasks| == 0
  {
    l.(tasks := [])
  }

  /**
   `TodoList::update_task`: the first task named `name` gets `description`.
   Its name is rewritten with the lookup key, so it cannot change.
   */
  function UpdateTask(l: TodoList, name: string, description: string): (r: TodoList)
    ensures r.owner == l.owner
    ensures |r.tasks| == |l.tasks|
    ensures Absent(l.tasks, name) ==> r == l
    ensures forall i :: IsFirstMatch(l.tasks, name, i) ==>
              && r.tasks[i] == Task(name, description, l.tasks[i].completed)
              && forall j :: 0 <= j < |l.tasks| && j != i ==> r.tasks[j] == l.tasks[j]
  {
    match Position(l.tasks, name)
    case None => l
    case Some(pos) =>
      assert forall i :: IsFirstMatch(l.tasks, name, i) ==> i == pos by {
        forall i | IsFirstMatch(l.tasks, name, i) {
          FirstMatchUnique(l.tasks, name, i, pos);
        }
      }
      l.(tasks := l.tasks[pos := UpdateFields(l.tasks[pos], name, description)])
  }

  /** `TodoList::completed_task`: sets the flag of the first task named `name`. */
  function CompletedTask(l: TodoList, name: string, completed: bool): (r: TodoList)
    ensures r.owner == l.owner
    ensures |r.tasks| == |l.tasks|
    ensures Absent(l.tasks, name) ==> r == l
    ensures forall i :: IsFirstMatch(l.tasks, name, i) ==>
              && r.tasks[i] == Task(l.tasks[i].name, l.tasks[i].description, completed)
              && forall j :: 0 <= j < |l.tasks| && j != i ==> r.tasks[j] == l.tasks[j]
  {
    match Position(l.tasks, name)
    case None => l
    case Some(pos) =>
      assert forall i :: IsFirstMatch(l.tasks, name, i) ==> i == pos by {
        forall i | IsFirstMatch(l.tasks, name, i) {
          FirstMatchUnique(l.tasks, name, i, pos);
        }
      }
      l.(tasks := l.tasks[pos := Done(l.tasks[pos], completed)])
  }

  // Reference definitions by recursion on the list, and the lemmas that
  // tie the index-based operations above to them.

  /** The list without its first task named `name`. */
  function RemoveFirst(tasks: seq<Task>, name: string): seq<Task>
  {
    if |tasks| == 0 then []
    else if tasks[0].name == name then tasks[1..]
    else [tasks[0]] + RemoveFirst(tasks[1..], name)
  }

  /** The list with `f` applied to its first task named `name` only. */
  function MapFirst(tasks: seq<Task>, name: string, f: Task -> Task): seq<Task>
  {
    if |tasks| == 0 then []
    else if tasks[0].name == name then [f(tasks[0])] + tasks[1..]
    else [tasks[0]] + MapFirst(tasks[1..], name, f)
  }

  /** A first match in the tail is the next index's first match in the whole list. */
  lemma FirstMatchInTail(tasks: seq<Task>, name: string, i: int)
    requires |tasks| > 0 && tasks[0].name != name
    ensures IsFirstMatch(tasks[1..], name, i) <==> IsFirstMatch(tasks, name, i + 1)
  {
  }

  lemma {:induction false} DeleteTaskRemovesFirst(l: TodoList, name: string)
    ensures DeleteTask(l, name).tasks == RemoveFirst(l.tasks, name)
    decreases |l.tasks|
  {
    var t := l.tasks;
    if |t| == 0 {
    } else if t[0].name == name {
      assert IsFirstMatch(t, name, 0);
    } else {
      var l' := l.(tasks := t[1..]);
      DeleteTaskRemovesFirst(l', name);
      match Position(t[1..], name)
      case None =>
        assert Absent(t, name) by {
          forall j | 0 <= j < |t| ensures t[j].name != name {
            if j > 0 { assert t[j] == t[1..][j - 1]; }
          }
        }
        assert t == [t[0]] + t[1..];
      case Some(i) =>
        FirstMatchInTail(t, name, i);
        assert t[..i + 1] + t[i + 2..] == [t[0]] + (t[1..][..i] + t[1..][i + 1..]);
    }
  }

  /** Replacing the first match in place is the recursive `MapFirst`. */
  lemma {:induction false} FirstMatchUpdateIsMapFirst(tasks: seq<Task>, name: string, f: Task -> Task, i: int)
    requires IsFirstMatch(tasks, name, i)
    ensures tasks[i := f(tasks[i])] == MapFirst(tasks, name, f)
    decreases |tasks|
  {
    if tasks[0].name == name {
      FirstMatchUnique(tasks, name, 0, i);
    } else {
      FirstMatchInTail(tasks, name, i - 1);
      FirstMatchUpdateIsMapFirst(tasks[1..], name, f, i - 1);
      assert tasks[i := f(tasks[i])] == [tasks[0]] + tasks[1..][i - 1 := f(tasks[1..][i - 1])];
    }
  }

  /** With no match, `MapFirst` leaves the list as it is. */
  lemma {:induction false} MapFirstAbsent(tasks: seq<Task>, name: string, f: Task -> Task)
    requires Absent(tasks, name)
    ensures MapFirst(tasks, name, f) == tasks
    decreases |tasks|
  {
    if |tasks| > 0 {
      assert tasks[0].name != name;
      MapFirstAbsent(tasks[1..], name, f);
      assert tasks == [tasks[0]] + tasks[1..];
    }
  }

  lemma UpdateTaskMapsFirst(l: TodoList, name: string, description: string)
    ensures UpdateTask(l, name, description).tasks
         == MapFirst(l.tasks, name, (t: Task) => UpdateFields(t, name, description))
  {
    var f := (t: Task) => UpdateFields(t, name, description);
    match Position(l.tasks, name)
    case None => MapFirstAbsent(l.tasks, name, f);
    case Some(pos) => FirstMatchUpdateIsMapFirst(l.tasks, name, f, pos);
  }

  lemma CompletedTaskMapsFirst(l: TodoList, name: string, completed: bool)
    ensures CompletedTask(l, name, completed).tasks
         == MapFirst(l.tasks, name, (t: Task) => Done(t, completed))
  {
    var f := (t: Task) => Done(t, completed);
    match Position(l.tasks, name)
    case None => MapFirstAbsent(l.tasks, name, f);
    case Some(pos) => FirstMatchUpdateIsMapFirst(l.tasks, name, f, pos);
  }

  // Further properties of the list operations.

  /** Deleting the name just added to a list that lacked it gives the list back. */
  lemma DeleteTaskUndoesAddTask(l: TodoList, name: string, description: string)
    requires Absent(l.tasks, name)
    ensures DeleteTask(AddTask(l, name, description), name) == l
  {
  }

  /** With two tasks named alike, deleting removes the earlier; the later survives, shifted down by one. */
  lemma DeleteTaskKeepsLaterDuplicate(l: TodoList, name: string, i: int, k: int)
    requires IsFirstMatch(l.tasks, name, i)
    requires i < k < |l.tasks| && l.tasks[k].name == name
    ensures DeleteTask(l, name).tasks[k - 1] == l.tasks[k]
    ensures IsFirstMatch(DeleteTask(l, name).tasks, name, k - 1) <==>
              forall j :: i < j < k ==> l.tasks[j].name != name
  {
    var r := DeleteTask(l, name).tasks;
    assert r == l.tasks[..i] + l.tasks[i + 1..];
    assert forall j :: 0 <= j < i ==> r[j] == l.tasks[j];
    assert forall j :: i <= j < |r| ==> r[j] == l.tasks[j + 1];
    if forall j :: i < j < k ==> l.tasks[j].name != name {
      forall j | 0 <= j < k - 1 ensures r[j].name != name {
        if j >= i { assert r[j] == l.tasks[j + 1]; }
      }
    }
    if IsFirstMatch(r, name, k - 1) {
      forall j | i < j < k ensures l.tasks[j].name != name {
        assert r[j - 1] == l.tasks[j];
      }
    }
  }

  /** `update_task` never changes any task's name. */
  lemma UpdateTaskKeepsNames(l: TodoList, name: string, description: string)
    ensures forall j :: 0 <= j < |l.tasks| ==>
              UpdateTask(l, name, description).tasks[j].name == l.tasks[j].name
  {
  }

  lemma UpdateTaskIdempotent(l: TodoList, name: string, description: string)
    ensures UpdateTask(UpdateTask(l, name, description), name, description)
         == UpdateTask(l, name, description)
  {
  }

  lemma CompletedTaskIdempotent(l: TodoList, name: string, completed: bool)
    ensures CompletedTask(CompletedTask(l, name, completed), name, completed)
         == CompletedTask(l, name, completed)
  {
  }

  /** After a reset, an added task is the only one. */
  lemma ResetThenAddTask(l: TodoList, name: string, description: string)
    ensures AddTask(Reset(l), name, description).tasks == [NewTask(name, description)]
  {
  }
}
