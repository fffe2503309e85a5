# rust-redux: a verified model of the store and the todo reducer

This project models the two working pieces of the rust-redux crate in Dafny:

- **The generic store** (`src/lib.rs`, module `Redux`). It holds a state, a reducer, and two append-only lists of callbacks: listeners and middlewares. `dispatch` first replaces the state with `reducer(state, action)`. It then calls every middleware, in registration order, with the new state and the action. Last, it calls every listener, in registration order, with the new state. Listeners and middlewares are opaque identities. The class's ghost `trace` records each callback invocation as an `Event`. `Store.Dispatch` promises that the trace grows by exactly `DispatchEvents(middlewares, listeners, newState, action)`. The lemmas about `DispatchEvents` then prove several facts:
  - each middleware is called once, in order;
  - each listener is called once, in order;
  - every listener call comes after every middleware call;
  - every call sees the committed state.
- **The todo-specialised store** (`src/redux.rs`, module `TodoRedux`). It is the same pattern without middleware and starts from `State::with_defaults`. This module also defines the todo domain types (`Todo`, `State`, `Action`, `TodoAction`, `VisibilityFilter`) and their constructors. `examples/todo_list/src/main.rs:12-64` redeclares the same types, so they are defined only once here.
- **The todo example's reducer and view** (`examples/todo_list/src/main.rs`, module `TodoList`):
  - `reducer` (`Reduce`) combines `todo_reducer` and `visibility_reducer`.
  - `todo_reducer` is the imperative method `TodoReducer`. It copies the list, then appends a todo or updates the one that `get_mut_todo` (`GetMutTodo`, a linear search) finds. It is proved equal to the specification function `TodoReduce`, and the lemmas state what each action does.
  - The row selection inside `render` is the method `Render`. It is proved equal to the projection `Visible`, whose lemmas cover membership, order and idempotence.
  - `Replay` folds the reducer over a sequence of actions. `ReplayKeepsIds` proves that, from a state whose ids equal their positions (such as the default state), the todo at index `i` keeps id `i + 1` along any run of actions, as long as the final list has fewer than 32767 todos.
  - `Session` is a client method. It wires the generic store to this reducer, as the example's `main` does, and steps through add, toggle, remove and show.

Unlike Redux's usual design, this crate has no `next` continuation chain, no middleware that can block or rewrite the action, no deferred "thunk" actions and no locking; the model follows the code. Middleware runs after the reducer, receives the new state and the action, and cannot change either (`src/lib.rs:35-38`). Because `Store.Dispatch`'s postcondition on the state does not mention middlewares or listeners, a store with any middleware reaches the same states as one with none.

## Model

| member | source | states |
|---|---|---|
| `Redux.MiddlewareCalls` | src/lib.rs:36-38 | one invocation per registered middleware; the k-th is the k-th middleware, given the post-reducer state and the action |
| `Redux.ListenerCalls` | src/lib.rs:39-41 | one invocation per registered listener; the k-th is the k-th listener, given the post-reducer state |
| `Redux.CalledOfConcat` | src/lib.rs:36-41 | the callees of two consecutive call sequences are the callees of the first followed by those of the second |
| `Redux.MiddlewareCallsCallees` | src/lib.rs:36-38 | the middleware loop calls exactly the registered list: each middleware once, in registration order, and no listener |
| `Redux.ListenerCallsCallees` | src/redux.rs:81-83 | the listener loop calls exactly the registered list: each listener once, in index order, and no middleware |
| `Redux.DispatchCallsEachOnceInOrder` | src/lib.rs:34-42 | one dispatch calls exactly the registered middlewares, in order, then exactly the registered listeners, in order; every listener call comes after every middleware call; all calls see the committed state; every middleware call sees the dispatched action |
| `Redux.Store.CreateStore` | src/lib.rs:13-20 | the new store holds the initial state and the given reducer, with no listeners, no middlewares and no calls made |
| `Redux.Store.Subscribe` | src/lib.rs:22-24 | appends exactly one listener at the end; state, middlewares and trace unchanged |
| `Redux.Store.ApplyMiddleware` | src/lib.rs:26-28 | appends exactly one middleware at the end; state, listeners and trace unchanged |
| `Redux.Store.GetState` | src/lib.rs:30-32 | returns the current state and changes nothing, so two calls with no dispatch between them return equal values |
| `Redux.Store.Dispatch` | src/lib.rs:34-42 | the new state is `reducer(old state, action)`; the listener and middleware lists are unchanged; the trace grows by exactly the middleware calls, then the listener calls, all with the new state |
| `TodoRedux.WithDefaults` | src/redux.rs:8-13 | the default state has no todos and filter ShowAll |
| `TodoRedux.NewTodo` | src/redux.rs:25-32 | a new todo keeps the given id and title and is neither completed nor deleted |
| `TodoRedux.Store.CreateStore` | src/redux.rs:64-70 | the store starts from the default state (empty list, ShowAll) with the given reducer and no listeners |
| `TodoRedux.Store.Subscribe` | src/redux.rs:71-73 | appends exactly one listener at the end; state and trace unchanged |
| `TodoRedux.Store.GetState` | src/redux.rs:75-77 | returns a value equal to the stored state and changes nothing |
| `TodoRedux.Store.Dispatch` | src/redux.rs:79-84 | the new state is `reducer(old state, action)`; the listener list is unchanged; each listener is notified once, in index order, with the new state |
| `TodoList.WrapI16` | examples/todo_list/src/main.rs:84 | the 16-bit two's-complement truncation is congruent to its input modulo 65536 and is the identity on the `i16` range |
| `TodoList.NewId` | examples/todo_list/src/main.rs:84 | the new id is the old length plus one modulo 65536, and exactly the old length plus one when the list has fewer than 32767 todos |
| `TodoList.FindTodo` | examples/todo_list/src/main.rs:111-113 | the lookup yields the index of the first todo with the id, or nothing exactly when no todo has it |
| `TodoList.GetMutTodo` | examples/todo_list/src/main.rs:111-113 | the linear search returns the first-match lookup's result |
| `TodoList.FindTodoSeesOnlyIds` | examples/todo_list/src/main.rs:112 | the lookup depends only on the ids, so changing `completed` or `deleted` does not change which todo is found |
| `TodoList.TodoReducer` | examples/todo_list/src/main.rs:74-102 | the copy-and-update method computes exactly the specification `TodoReduce` |
| `TodoList.VisibilityReduce` | examples/todo_list/src/main.rs:104-109 | a Visibility action yields its filter; a Todos action keeps the current filter |
| `TodoList.Reduce` | examples/todo_list/src/main.rs:66-72 | the new state takes its todos from `TodoReduce` (`todo_reducer`) and its filter from `VisibilityReduce` (`visibility_reducer`); `ReduceFrames` proves the frame facts |
| `TodoList.ReduceFrames` | examples/todo_list/src/main.rs:66-109 | a Visibility action leaves the todos unchanged and sets the filter; a Todos action leaves the filter unchanged and takes its todos from `todo_reducer` |
| `TodoList.AddAppends` | examples/todo_list/src/main.rs:83-86 | Add makes the list one longer and keeps every earlier todo; the new last todo has the given title, is neither completed nor deleted, and has id old length + 1 when the list held fewer than 32767 todos |
| `TodoList.ToggleFlipsFirstMatch` | examples/todo_list/src/main.rs:87-91 | Toggle keeps the length; it flips `completed` on the first todo with the id and changes nothing else; with no match the list is unchanged |
| `TodoList.ToggleTwiceRestores` | examples/todo_list/src/main.rs:87-91 | toggling the same id twice returns the original list |
| `TodoList.RemoveMarksFirstMatch` | examples/todo_list/src/main.rs:92-96 | Remove keeps the length; it sets `deleted` on the first todo with the id and changes nothing else; with no match the list is unchanged |
| `TodoList.RemoveIdempotent` | examples/todo_list/src/main.rs:92-96 | removing the same id twice equals removing it once |
| `TodoList.ReplayNeverShrinks` | examples/todo_list/src/main.rs:74-102 | no sequence of actions shortens the todo list |
| `TodoList.ReduceKeepsIds` | examples/todo_list/src/main.rs:83-86 | one reducer step keeps "the todo at index i has id i + 1" while the list has fewer than 32767 todos |
| `TodoList.ReplayKeepsIds` | examples/todo_list/src/main.rs:19-24 | from any state whose ids equal their positions, such as the default state, any run of actions keeps "the todo at index i has id i + 1" while the list stays under 32767 todos |
| `TodoList.VisibleMembers` | examples/todo_list/src/main.rs:131-139 | a todo is printed iff it is in the list and not deleted and (ShowAll, or ShowCompleted and completed, or ShowActive and not completed); no deleted todo is ever printed |
| `TodoList.VisibleOfConcat` | examples/todo_list/src/main.rs:131 | the projection preserves list order: the rows for `a + b` are those for `a` followed by those for `b` |
| `TodoList.VisibleIdempotent` | examples/todo_list/src/main.rs:133-138 | filtering the printed rows again yields the same rows |
| `TodoList.VisiblePartition` | examples/todo_list/src/main.rs:134-137 | under ShowAll as many rows are printed as under ShowActive and ShowCompleted together |
| `TodoList.Render` | examples/todo_list/src/main.rs:128-140 | the index loop selects exactly the visible projection of the list under the current filter, in list order |

## Left out

- `TodoList.NewId`: `len as i16 + 1` is modelled with wrap-around. In a debug build, Rust instead panics on the `+ 1` when the truncated length is 32767. The wrapping form keeps the reducer total, so it can be stored as a `(State, Action) -> State` value. Past 65535 todos, ids repeat, and `Toggle`/`Remove` then act on the oldest todo with that id.
- What listeners and middlewares do: they are plain function pointers that receive no handle to the store. Only the fact, order and arguments of each call are modelled, not the callbacks' own effects.
- The body of `render` beyond its selection: `print_todo`, `print_instructions`, `invalid_command` and the `println!` calls. `Render` returns the rows it would print.
- The stdin command loop and its parsing in the example's `main` (`examples/todo_list/src/main.rs:174-210`). This is terminal I/O; `Session` shows the same store wiring with fixed actions.
- `logger` (`examples/todo_list/src/main.rs:146-164`): it only writes to a file.
- The `call_dispatch` middleware (`examples/todo_list/src/main.rs:167-171`). Its signature takes a dispatch callback that the store never supplies, since the store's middleware type is `fn(&T, U)`. The example's registration chain `subscribe(render).apply_middleware(...)` does not match `subscribe`, which returns nothing. `Session` subscribes only the renderer.
- `src/main.rs`: it does not compile. Its reducer adds to an unconstrained type, matches variants that no `Action` has, and redeclares `Action`.
- Concurrency, locks, middleware continuation chains and deferred actions: the code has none of them.
- Rust's cloning, borrowing and `Debug` formatting: they do not affect behaviour.
