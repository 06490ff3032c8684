# Owner-gated CosmWasm contracts: todo-list and hello-world

This project models two small CosmWasm contracts and proves properties of them.

- **todo-list** stores one `TodoList`: an owner address and an ordered list of tasks. Each task has a name, a description and a `completed` flag. The owner can add, delete, update, complete and reset tasks. Anyone can query the tasks.
- **hello-world** stores one greeting string and its owner. The owner can replace the greeting. Anyone can read it.

The two contracts share one execution pattern, modelled once in `CosmWasm.OwnerGated`:

1. Load the single stored item. A missing item fails with `NotFound`.
2. Reject any sender other than the stored owner with `Unauthorized`.
3. Apply one change to the loaded value.
4. Save the result.

Storage is a single `Option<S>` value. Every execute entry point is a pure function from the old storage, the sender and the message, and returns the reply and the new storage; the storage changes only when the reply is `Ok`. `Instantiate` takes the sender and the message, does not read the old storage, and returns the reply and the new storage. Queries take the storage and the message and return only a result.

Files:

- `base.dfy`: `Option` and `Result`.
- `cosmwasm.dfy`: caller addresses, errors, responses, `Item::update`, and the owner gate.
- `todo_state.dfy`: the `TodoList` operations from `todo-list/src/state.rs`. Each by-name lookup acts on the first task with that name, found through `Position`. The file also has two recursive reference definitions of those operations, `RemoveFirst` and `MapFirst`, and lemmas proving that the operations agree with them.
- `todo_contract.dfy`: the todo-list entry points, the message enums and the tasks query. It also defines `Run`, which runs a sequence of calls, and proves properties over whole call sequences with it.
- `hello_contract.dfy`: the hello-world entry points and greeting formatting. `StripGreeting` is the inverse of greeting formatting.

Facts about the code that the model keeps exactly:

- The greeting prefix is `"Hello Wolrd! "`, misspelled, as both `format!` calls write it (hello-world/src/contract.rs:22, 59).
- The tasks query returns full `Task` values rebuilt through `Task::new`, so `completed` is always `false` (todo-list/src/contract.rs:153-157).
- The hello-world `proper_initialization` test expects instantiating with `"Hello Wolrd! Cosmwasm"` to store that same string. `instantiate` adds the prefix again. `HelloContract.InstantiatePrefixesAgain` shows what the code stores.

`ContractError` is modelled as `Unauthorized | Std(StdError)`, and `StdError` has only `NotFound`. The file that declares `ContractError` is not part of this model. A wrapping variant must exist because both handlers apply `?` to `Item::update`, and that needs a conversion from `StdError`.

Queries return only a response and no new storage, so they cannot change the stored state.

## Model

| member | source | states |
|---|---|---|
| CosmWasm.Update | todo-list/src/contract.rs:70-76 | A missing item fails with `NotFound`. Otherwise the result is the closure's result on the stored value. The new value is saved exactly when the closure returns `Ok`, and an error leaves storage as it was. |
| CosmWasm.OwnerGated | todo-list/src/contract.rs:64-78 | The shared handler shape. A failed call never changes storage. A missing item gives `NotFound`. A sender who is not the owner gets `Unauthorized`. The owner gets the `action` reply, and the changed value is stored. |
| TodoState.Position | todo-list/src/state.rs:30 | The `position` lookup by name. When it returns an index, that index is the first one holding the name. It returns nothing exactly when no task has the name. |
| TodoState.Init | todo-list/src/state.rs:16-21 | The caller is the owner. The list holds exactly one task, with the given name and description, not completed. |
| TodoState.AddTask | todo-list/src/state.rs:23-27 | The owner is kept and the list grows by exactly one. The old tasks are an unchanged prefix. The new last task has the given name and description and is not completed. A name already in use is not rejected. |
| TodoState.DeleteTask | todo-list/src/state.rs:29-33 | The owner is kept. The call does nothing when no task has the name. Otherwise the list is the old list with only the first matching task removed, and the rest keep their order. |
| TodoState.Reset | todo-list/src/state.rs:35-37 | The owner is kept and the list is empty. |
| TodoState.UpdateTask | todo-list/src/state.rs:39-43 | The owner and the length are kept. The call does nothing when no task has the name. Otherwise the first match becomes `(name, description, its old flag)`, and every other task is unchanged. |
| TodoState.CompletedTask | todo-list/src/state.rs:45-49 | The owner and the length are kept. The call does nothing when no task has the name. Otherwise only the first match has its flag set, its name and description are kept, and every other task is unchanged. |
| TodoState.DeleteTaskRemovesFirst | todo-list/src/state.rs:29-33 | `delete_task` equals `RemoveFirst`, which scans recursively and drops the first task with the name. |
| TodoState.UpdateTaskMapsFirst | todo-list/src/state.rs:39-43 | `update_task` equals `MapFirst` applying `Task::update(name, description)` to the first match only. |
| TodoState.CompletedTaskMapsFirst | todo-list/src/state.rs:45-49 | `completed_task` equals `MapFirst` applying `Task::done(completed)` to the first match only. |
| TodoState.DeleteTaskUndoesAddTask | todo-list/src/state.rs:23-33 | On a list where the name is unused, deleting it right after adding it gives back the original list. |
| TodoState.DeleteTaskKeepsLaterDuplicate | todo-list/src/state.rs:29-33 | When two tasks share a name, deleting removes the earlier one. The later one survives, one place lower. It becomes the first match exactly when no task between the two has that name. |
| TodoState.UpdateTaskKeepsNames | todo-list/src/state.rs:68-71 | `update_task` rewrites the name with the lookup key, so no task's name ever changes. |
| TodoState.UpdateTaskIdempotent | todo-list/src/state.rs:39-43 | Applying `update_task(n, d)` twice gives the same list as applying it once. |
| TodoState.CompletedTaskIdempotent | todo-list/src/state.rs:45-49 | Applying `completed_task(n, c)` twice gives the same list as applying it once. |
| TodoState.ResetThenAddTask | todo-list/src/state.rs:23-37 | After `reset`, an added task is the only task in the list. |
| TodoContract.Instantiate | todo-list/src/contract.rs:15-36 | The stored value is `TodoList::init(sender, name, descripton)`, so the owner is the sender. The call succeeds, and its reply starts with `method=instantiate, owner=<sender>`. |
| TodoContract.ExecAddTask | todo-list/src/contract.rs:64-78 | A missing item gives `NotFound` and storage is unchanged. A non-owner gets `Unauthorized` and storage is unchanged. The owner gets `action=add_task`, and `add_task` applied to the old list is stored. |
| TodoContract.ExecDeleteTask | todo-list/src/contract.rs:80-93 | A missing item gives `NotFound` and storage is unchanged. A non-owner gets `Unauthorized` and storage is unchanged. The owner gets `action=delete_task`, and `delete_task` applied to the old list is stored. |
| TodoContract.ExecUpdateTask | todo-list/src/contract.rs:95-109 | A missing item gives `NotFound` and storage is unchanged. A non-owner gets `Unauthorized` and storage is unchanged. The owner gets `action=update_task`, and `update_task` applied to the old list is stored. |
| TodoContract.ExecReset | todo-list/src/contract.rs:111-120 | A missing item gives `NotFound` and storage is unchanged. A non-owner gets `Unauthorized` and storage is unchanged. The owner gets `action=reset`, and the emptied list is stored. |
| TodoContract.ExecMarkTaskCompleted | todo-list/src/contract.rs:121-135 | A missing item gives `NotFound` and storage is unchanged. A non-owner gets `Unauthorized` and storage is unchanged. The owner gets `action=update_task`, not a name of its own, and `completed_task` applied to the old list is stored. |
| TodoContract.Execute | todo-list/src/contract.rs:39-58 | For every message, a failed call leaves storage unchanged. On an existing list the call succeeds exactly when the sender is the owner. The owner's call stores the message's own list operation and replies with that message's action name, and the owner never changes. |
| TodoContract.Project | todo-list/src/contract.rs:153-157 | The rebuilt list has the same length and order as the input. Each entry keeps its name and description, and its flag is `false`. |
| TodoContract.QueryTasks | todo-list/src/contract.rs:150-160 | The query fails with `NotFound` exactly when nothing is stored. Otherwise it returns one entry per stored task, in order: `(name, description, false)`, whatever the stored flag. |
| TodoContract.Query | todo-list/src/contract.rs:139-143 | The `query` entry point: `GetTasks` fails with `NotFound` exactly when nothing is stored, and otherwise returns every stored task in order as `(name, description, false)`. |
| TodoContract.RunKeepsOwner | todo-list/src/contract.rs:39-135 | After any sequence of execute calls by any senders, the list is still stored and has its original owner. |
| TodoContract.OutsidersChangeNothing | todo-list/src/contract.rs:64-135 | A sequence of execute calls in which no sender is the owner leaves the stored list exactly as it was. |
| TodoContract.QueryIgnoresCompleted | todo-list/src/contract.rs:150-160 | Marking a task completed or not completed never changes what the tasks query returns. |
| TodoContract.InstantiateThenQuery | todo-list/src/contract.rs:15-36 | Right after `instantiate(name, descripton)`, the tasks query returns exactly `[(name, descripton, false)]`. |
| TodoContract.AddTaskThenQuery | todo-list/src/contract.rs:64-78 | After the owner's `AddTask(n, d)`, the query returns the earlier result followed by `(n, d, false)`. |
| TodoContract.AddTasksScenario | todo-list/src/contract.rs:199-230 | Instantiate with `("Task1", "some des")`, then the creator sends `AddTask("task2", "desc")`. The reply is `add_task`, and the query returns `[("Task1", "some des"), ("task2", "desc")]`, neither completed. |
| HelloContract.Greeting | hello-world/src/contract.rs:59 | The greeting is the prefix `"Hello Wolrd! "` followed by exactly the message. |
| HelloContract.StripGreetingInverts | hello-world/src/contract.rs:22 | Formatting is injective. The message can always be recovered from its greeting. |
| HelloContract.Instantiate | hello-world/src/contract.rs:15-32 | The sender is the owner, and the greeting is the prefix followed by the message. The reply is `method=instantiate, owner=<sender>, greeting_message=<raw message>`. |
| HelloContract.ExecUpdateGreeting | hello-world/src/contract.rs:49-63 | A failed call leaves storage unchanged. A missing item gives `NotFound`, and a non-owner gets `Unauthorized`. The owner gets `action=update_greeting_message`, and the owner is kept. The new greeting is the prefix followed by the message. |
| HelloContract.Execute | hello-world/src/contract.rs:35-44 | A failed call changes nothing. A missing item gives `NotFound`, and a non-owner gets `Unauthorized`. On an existing state the update succeeds exactly when the sender is the owner. A success replies `action=update_greeting_message` and stores `"Hello Wolrd! " + message`, and the owner never changes. |
| HelloContract.QueryGetMessage | hello-world/src/contract.rs:78-83 | The query fails with `NotFound` exactly when nothing is stored. Otherwise it returns the stored greeting verbatim. |
| HelloContract.Query | hello-world/src/contract.rs:66-71 | The `query` entry point: `GetMessage` fails with `NotFound` exactly when nothing is stored, and otherwise returns the stored greeting verbatim. |
| HelloContract.UpdateThenQuery | hello-world/src/contract.rs:54-61 | After the owner's `Update(m)`, the query returns `"Hello Wolrd! " + m`. |
| HelloContract.UpdateIdempotent | hello-world/src/contract.rs:59 | Two owner updates with the same message leave the same storage as one. |
| HelloContract.UpdateForgetsPrevious | hello-world/src/contract.rs:54-61 | Two states with the same owner but different greetings end up identical after the same update. |
| HelloContract.UpdateMessageScenario | hello-world/src/contract.rs:113-133 | Instantiate, then the creator sends `Update("Max")`. The query then returns `"Hello Wolrd! Max"`. |
| HelloContract.InstantiatePrefixesAgain | hello-world/src/contract.rs:94-111 | Instantiating with `"Hello Wolrd! Cosmwasm"` stores `"Hello Wolrd! Hello Wolrd! Cosmwasm"`, not the string the test expects. |

## Left out

- `set_contract_version` is left out. It writes cw2 version metadata that the contract logic never reads.
- The storage write errors of `Item::save` and the JSON encoding (`to_binary`, serde) are left out, because they belong to external libraries. A save is modelled as always succeeding.
- `TodoContract.Query` and `HelloContract.Query` return the response value itself. The `to_binary` wrapping of the `query` entry points is left out, because the codec is an external library.
- The host glue is left out: the `#[entry_point]` macros, `Env`, and the funds in `MessageInfo`. Only the sender is passed in, as an `Addr` compared by equality.
- The `task` attribute of the todo-list instantiate reply is left out. Its value is Rust's `Debug` rendering of a tuple of strings, with Rust's escaping rules. `TodoContract.Instantiate` states only that the reply starts with the `method` and `owner` attributes.
- `GetCountResponse` in the todo-list messages is left out. No code uses it.
- The hello-world `State` type and its storage key live in a state file that is not part of this model. `State` is mirrored from its use in `hello-world/src/contract.rs`.
- A second `instantiate` on already-filled storage is not modelled. The host calls `instantiate` once, and the model's `Instantiate` returns the new storage without reading the old one.
- `Task::name` and `Task::description` are the datatype's field selectors. `Task::new`, `Task::update` and `Task::done` are helper functions (`NewTask`, `UpdateFields`, `Done`). Their behaviour is stated through the list operations' contracts.
