/** The todo-specialised store of src/redux.rs and the todo domain types.

    The todo example (examples/todo_list/src/main.rs) declares the same
    `State`, `Todo`, `Action`, `TodoAction` and `VisibilityFilter` types with
    the same constructors; they are defined once, here.
 */
module TodoRedux {
  import Redux

  /** Rust's `i16`. */
  newtype i16 = x: int | -0x8000 <= x < 0x8000

  datatype VisibilityFilter = ShowActive | ShowAll | ShowCompleted

  datatype Todo = Todo(id: i16, title: string, completed: bool, deleted: bool)

  datatype TodoAction = Add(title: string) | Toggle(id: i16) | Remove(id: i16)

  datatype Action = Todos(todoAction: TodoAction) | Visibility(filter: VisibilityFilter)

  datatype State = State(todos: seq<Todo>, visibilityFilter: VisibilityFilter)

  /** `State::with_defaults`: no todos, every todo shown. */
  function WithDefaults(): (s: State)
    ensures s.todos == [] && s.visibilityFilter == ShowAll
  {
    State([], ShowAll)
  }

  /** `Todo::new`: a fresh todo is neither completed nor deleted. */
  function NewTodo(id: i16, title: string): (t: Todo)
    ensures t.id == id && t.title == title
    ensures !t.completed && !t.deleted
  {
    Todo(id, title, false, false)
  }

  /** The store of src/redux.rs: a state, a reducer and listeners, no
      middleware.  Listener calls are recorded in the ghost `trace`. */
  class Store {
    var state: State
    var listeners: seq<Redux.Listener>
    const reducer: (State, Action) -> State
    /** Every listener invocation made so far, oldest first. */
    ghost var trace: seq<Redux.Event<State, Action>>

    constructor CreateStore(reducer: (State, Action) -> State)
      ensures state == WithDefaults() && this.reducer == reducer
      ensures listeners == [] && trace == []
    {
      state := WithDefaults();
      listeners := [];
      this.reducer := reducer;
      trace := [];
    }

    method Subscribe(listener: Redux.Listener)
      modifies this
      ensures listeners == old(listeners) + [listener]
      ensures state == old(state) && trace == old(trace)
    {
      listeners := listeners + [listener];
    }

    /** Returns a copy of the stored state. */
    method GetState() returns (s: State)
      ensures s == state
    {
      s := state;
    }

    /** Replaces the state by the reducer's result, then calls every listener,
        by index, with (a copy of) the new state. */
    method Dispatch(action: Action)
      modifies this
      ensures state == reducer(old(state), action)
      ensures listeners == old(listeners)
      ensures trace == old(trace) + Redux.ListenerCalls(listeners, state)
    {
      state := reducer(state, action);
      for i := 0 to |listeners|
        invariant state == reducer(old(state), action)
        invariant listeners == old(listeners)
        invariant trace == old(trace) + Redux.ListenerCalls(listeners[..i], state)
      {
        assert listeners[..i + 1][..i] == listeners[..i];
        trace := trace + [Redux.ListenerCall(listeners[i], state)];
      }
      assert listeners[..|listeners|] == listeners;
    }
  }
}
