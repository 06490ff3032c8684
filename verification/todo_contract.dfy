/**
 The todo-list contract's entry points. Every execute handler loads the
 stored list, rejects any sender but its owner, applies one list operation
 and stores the result; the one query hands back the tasks rebuilt with
 their completion flags cleared.
 */
module TodoContract {
  import opened Base
  import opened CosmWasm
  import TodoState

  type TodoList = TodoState.TodoList
  type Task = TodoState.Task

  datatype InstantiateMsg = InstantiateMsg(name: string, descripton: string)

  datatype ExecuteMsg =
    | AddTask(name: string, description: string)
    | UpdateTask(name: string, description: string)
    | DeleteTask(name: string)
    | Reset
    | Completed(name: string, completed: bool)

  datatype QueryMsg = GetTasks

  datatype TaskListResponse = TaskListResponse(tasks: seq<Task>)

  /** `instantiate`: stores a list owned by the sender and seeded with the message's task. */
  function Instantiate(sender: Addr, msg: InstantiateMsg): (e: Exec<TodoList>)
    ensures e.store == Some(TodoState.Init(sender, msg.name, msg.descripton))
    ensures e.store.value.owner == sender
    ensures e.reply.Ok?
    ensures |e.reply.value.attributes| >= 2
    ensures e.reply.value.attributes[..2]
         == [Attribute("method", "instantiate"), Attribute("owner", sender.value)]
  {
    var state := TodoState.Init(sender, msg.name, msg.descripton);
    Exec(Ok(Response([Attribute("method", "instantiate"), Attribute("owner", sender.value)])), Some(state))
  }

  /** Every handler's closure reads the owner from the stored list. */
  function Owner(l: TodoList): Addr
  {
    l.owner
  }

  function ExecAddTask(store: Option<TodoList>, sender: Addr, name: string, description: string): (e: Exec<TodoList>)
    ensures store.None? ==> e == Exec(Err(Std(NotFound)), store)
    ensures store.Some? && sender != store.value.owner ==> e == Exec(Err(Unauthorized), store)
    ensures store.Some? && sender == store.value.owner ==>
              e == Exec(Ok(ActionReply("add_task")), Some(TodoState.AddTask(store.value, name, description)))
  {
    OwnerGated(store, sender, Owner, (l: TodoList) => TodoState.AddTask(l, name, description), "add_task")
  }

  function ExecDeleteTask(store: Option<TodoList>, sender: Addr, name: string): (e: Exec<TodoList>)
    ensures store.None? ==> e == Exec(Err(Std(NotFound)), store)
    ensures store.Some? && sender != store.value.owner ==> e == Exec(Err(Unauthorized), store)
    ensures store.Some? && sender == store.value.owner ==>
              e == Exec(Ok(ActionReply("delete_task")), Some(TodoState.DeleteTask(store.value, name)))
  {
    OwnerGated(store, sender, Owner, (l: TodoList) => TodoState.DeleteTask(l, name), "delete_task")
  }

  function ExecUpdateTask(store: Option<TodoList>, sender: Addr, name: string, description: string): (e: Exec<TodoList>)
    ensures store.None? ==> e == Exec(Err(Std(NotFound)), store)
    ensures store.Some? && sender != store.value.owner ==> e == Exec(Err(Unauthorized), store)
    ensures store.Some? && sender == store.value.owner ==>
              e == Exec(Ok(ActionReply("update_task")), Some(TodoState.UpdateTask(store.value, name, description)))
  {
    OwnerGated(store, sender, Owner, (l: TodoList) => TodoState.UpdateTask(l, name, description), "update_task")
  }

  function ExecReset(store: Option<TodoList>, sender: Addr): (e: Exec<TodoList>)
    ensures store.None? ==> e == Exec(Err(Std(NotFound)), store)
    ensures store.Some? && sender != store.value.owner ==> e == Exec(Err(Unauthorized), store)
    ensures store.Some? && sender == store.value.owner ==>
              e == Exec(Ok(ActionReply("reset")), Some(TodoState.Reset(store.value)))
  {
    OwnerGated(store, sender, Owner, TodoState.Reset, "reset")
  }

  /** `mark_task_completed`: replies with the action name `update_task`, not one of its own. */
  function ExecMarkTaskCompleted(store: Option<TodoList>, sender: Addr, name: string, completed: bool): (e: Exec<TodoList>)
    ensures store.None? ==> e == Exec(Err(Std(NotFound)), store)
    ensures store.Some? && sender != store.value.owner ==> e == Exec(Err(Unauthorized), store)
    ensures store.Some? && sender == store.value.owner ==>
              e == Exec(Ok(ActionReply("update_task")), Some(TodoState.CompletedTask(store.value, name, completed)))
  {
    OwnerGated(store, sender, Owner, (l: TodoList) => TodoState.CompletedTask(l, name, completed), "update_task")
  }

  /** The list operation each message stands for. */
  function Apply(l: TodoList, msg: ExecuteMsg): TodoList
  {
    match msg
    case AddTask(name, description) => TodoState.AddTask(l, name, description)
    case UpdateTask(name, description) => TodoState.UpdateTask(l, name, description)
    case DeleteTask(name) => TodoState.DeleteTask(l, name)
    case Reset => TodoState.Reset(l)
    case Completed(name, completed) => TodoState.CompletedTask(l, name, completed)
  }

  /** The `action` attribute each message's handler replies with. */
  function ActionOf(msg: ExecuteMsg): string
  {
    match msg
    case AddTask(_, _) => "add_task"
    case UpdateTask(_, _) => "update_task"
    case DeleteTask(_) => "delete_task"
    case Reset => "reset"
    case Completed(_, _) => "update_task"
  }

  /**
   `execute`: routes each message to its handler. Whatever the message, a
   failed call leaves storage as it was, only the owner succeeds, and the
   owner never changes.
   */
  function Execute(store: Option<TodoList>, sender: Addr, msg: ExecuteMsg): (e: Exec<TodoList>)
    ensures e.reply.Err? ==> e.store == store
    ensures store.None? ==> e.reply == Err(Std(NotFound))
    ensures store.Some? ==> (e.reply.Ok? <==> sender == store.value.owner)
    ensures store.Some? && sender != store.value.owner ==> e.reply == Err(Unauthorized)
    ensures store.Some? && sender == store.value.owner ==>
              e.store == Some(Apply(store.value, msg)) && e.reply == Ok(ActionReply(ActionOf(msg)))
    ensures store.Some? ==> e.store.Some? && e.store.value.owner == store.value.owner
  {
    match msg
    case AddTask(name, description) => ExecAddTask(store, sender, name, description)
    case UpdateTask(name, description) => ExecUpdateTask(store, sender, name, description)
    case DeleteTask(name) => ExecDeleteTask(store, sender, name)
    case Reset => ExecReset(store, sender)
    case Completed(name, completed) => ExecMarkTaskCompleted(store, sender, name, completed)
  }

  /** `query::tasks`'s loop: every stored task rebuilt through `Task::new`. */
  function Project(tasks: seq<Task>): (r: seq<Task>)
    ensures |r| == |tasks|
    ensures forall i :: 0 <= i < |tasks| ==>
              && r[i].name == tasks[i].name
              && r[i].description == tasks[i].description
              && !r[i].completed
  {
    if |tasks| == 0 then []
    else [TodoState.NewTask(tasks[0].name, tasks[0].description)] + Project(tasks[1..])
  }

  /** `query::tasks`: the stored tasks in order, each with its flag cleared. */
  function QueryTasks(store: Option<TodoList>): (r: Result<TaskListResponse, StdError>)
    ensures r.Err? <==> store.None?
    ensures r.Err? ==> r.error == NotFound
    ensures r.Ok? ==> |r.value.tasks| == |store.value.tasks|
    ensures r.Ok? ==> forall i :: 0 <= i < |store.value.tasks| ==>
              r.value.tasks[i] == TodoState.Task(store.value.tasks[i].name, store.value.tasks[i].description, false)
  {
    match store
    case None => Err(NotFound)
    case Some(l) => Ok(TaskListResponse(Project(l.tasks)))
  }

  /** `query`: the only query message asks for the tasks. */
  function Query(store: Option<TodoList>, msg: QueryMsg): (r: Result<TaskListResponse, StdError>)
    ensures r.Err? <==> store.None?
    ensures r.Err? ==> r.error == NotFound
    ensures r.Ok? ==> |r.value.tasks| == |store.value.tasks|
    ensures r.Ok? ==> forall i :: 0 <= i < |store.value.tasks| ==>
              r.value.tasks[i] == TodoState.Task(store.value.tasks[i].name, store.value.tasks[i].description, false)
  {
    match msg
    case GetTasks => QueryTasks(store)
  }

  // Properties of the contract across calls.

  /** One execute call, by whoever sent it. */
  datatype Call = Call(sender: Addr, msg: ExecuteMsg)

  /** The storage item after the host runs `calls` one after another. */
  function Run(store: Option<TodoList>, calls: seq<Call>): Option<TodoList>
    decreases |calls|
  {
    if |calls| == 0 then store
    else Run(Execute(store, calls[0].sender, calls[0].msg).store, calls[1..])
  }

  /** No sequence of calls changes the owner or empties the storage item. */
  lemma {:induction false} RunKeepsOwner(store: Option<TodoList>, calls: seq<Call>)
    requires store.Some?
    ensures Run(store, calls).Some?
    ensures Run(store, calls).value.owner == store.value.owner
    decreases |calls|
  {
    if |calls| > 0 {
      RunKeepsOwner(Execute(store, calls[0].sender, calls[0].msg).store, calls[1..]);
    }
  }

  /** Calls from anyone but the owner leave the stored list exactly as it was. */
  lemma {:induction false} OutsidersChangeNothing(store: Option<TodoList>, calls: seq<Call>)
    requires store.Some?
    requires forall i :: 0 <= i < |calls| ==> calls[i].sender != store.value.owner
    ensures Run(store, calls) == store
    decreases |calls|
  {
    if |calls| > 0 {
      OutsidersChangeNothing(store, calls[1..]);
    }
  }

  /** Marking a task done or not is invisible to the tasks query. */
  lemma QueryIgnoresCompleted(l: TodoList, name: string, completed: bool)
    ensures QueryTasks(Some(TodoState.CompletedTask(l, name, completed))) == QueryTasks(Some(l))
  {
    var r := TodoState.CompletedTask(l, name, completed);
    assert Project(r.tasks) == Project(l.tasks) by {
      forall j | 0 <= j < |l.tasks| ensures Project(r.tasks)[j] == Project(l.tasks)[j] {
        assert r.tasks[j].name == l.tasks[j].name && r.tasks[j].description == l.tasks[j].description;
      }
    }
  }

  /** Right after instantiation the query returns exactly the seed task, not completed. */
  lemma InstantiateThenQuery(sender: Addr, msg: InstantiateMsg)
    ensures Query(Instantiate(sender, msg).store, GetTasks)
         == Ok(TaskListResponse([TodoState.Task(msg.name, msg.descripton, false)]))
  {
    var l := Instantiate(sender, msg).store.value;
    assert l.tasks == [TodoState.NewTask(msg.name, msg.descripton)];
    var q := Query(Some(l), GetTasks).value.tasks;
    assert |q| == 1 && q[0] == TodoState.Task(msg.name, msg.descripton, false);
    assert q == [TodoState.Task(msg.name, msg.descripton, false)];
  }

  /** A task added by the owner shows up last in the query, after the earlier tasks in order. */
  lemma AddTaskThenQuery(store: Option<TodoList>, name: string, description: string)
    requires store.Some?
    ensures var e := Execute(store, store.value.owner, AddTask(name, description));
            QueryTasks(e.store).Ok?
            && QueryTasks(e.store).value.tasks
               == QueryTasks(store).value.tasks + [TodoState.NewTask(name, description)]
  {
  }

  /** Instantiating with ("Task1", "some des") and then adding ("task2", "desc") as the owner. */
  lemma AddTasksScenario()
    ensures var creator := Addr("creator");
            var e0 := Instantiate(creator, InstantiateMsg("Task1", "some des"));
            var e1 := Execute(e0.store, creator, AddTask("task2", "desc"));
            && e1.reply == Ok(ActionReply("add_task"))
            && Query(e1.store, GetTasks)
               == Ok(TaskListResponse([TodoState.NewTask("Task1", "some des"), TodoState.NewTask("task2", "desc")]))
  {
    var creator := Addr("creator");
    var e0 := Instantiate(creator, InstantiateMsg("Task1", "some des"));
    assert e0.store.value.owner == creator;
    AddTaskThenQuery(e0.store, "task2", "desc");
    var q0 := QueryTasks(e0.store).value.tasks;
    assert |q0| == 1 && q0[0] == TodoState.NewTask("Task1", "some des");
    assert q0 == [TodoState.NewTask("Task1", "some des")];
    var e1 := Execute(e0.store, creator, AddTask("task2", "desc"));
    assert e1.reply == Ok(ActionReply("add_task"));
    assert QueryTasks(e1.store).value.tasks == q0 + [TodoState.NewTask("task2", "desc")];
    assert q0 + [TodoState.NewTask("task2", "desc")]
        == [TodoState.NewTask("Task1", "some des"), TodoState.NewTask("task2", "desc")];
  }
}
