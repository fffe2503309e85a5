/** The todo-list example application (examples/todo_list/src/main.rs): its
    reducer, the lookup helper it uses, and the selection of the rows that
    `render` prints.  The domain types come from the TodoRedux module.
 */
module TodoList {
  import opened TodoRedux
  import Redux

  datatype Option<T> = None | Some(value: T)

  // ---------------------------------------------------------------------
  // 16-bit arithmetic of the new-id computation
  // ---------------------------------------------------------------------

  /** Two's-complement truncation to 16 bits: Rust's `as i16` cast, and the
      result of a wrapping `i16` addition. */
  function WrapI16(x: int): (r: i16)
    ensures (r as int - x) % 0x10000 == 0
    ensures -0x8000 <= x < 0x8000 ==> r as int == x
  {
    var m := x % 0x10000;
    if m < 0x8000 then m as i16 else (m - 0x10000) as i16
  }

  /** The id given to a todo appended to a list of `len` todos:
      `len as i16 + 1`. */
  function NewId(len: nat): (id: i16)
    ensures (id as int - (len + 1)) % 0x10000 == 0
    ensures len < 0x7fff ==> id as int == len + 1
  {
    WrapI16(WrapI16(len) as int + 1)
  }

  // ---------------------------------------------------------------------
  // get_mut_todo
  // ---------------------------------------------------------------------

  /** `j` is the index of the first todo whose id is `id`. */
  ghost predicate IsFirstWithId(todos: seq<Todo>, id: i16, j: int)
  {
    0 <= j < |todos| && todos[j].id == id &&
    forall k :: 0 <= k < j ==> todos[k].id != id
  }

  /** The index of the first todo with the given id, if any. */
  function FindTodo(todos: seq<Todo>, id: i16): (r: Option<nat>)
    ensures r.Some? ==> IsFirstWithId(todos, id, r.value)
    ensures r.None? ==> forall k :: 0 <= k < |todos| ==> todos[k].id != id
  {
    if todos == [] then None
    else if todos[0].id == id then Some(0)
    else match FindTodo(todos[1..], id)
      case None => None
      case Some(i) => Some(i + 1)
  }

  /** `get_mut_todo`: the linear search of `iter_mut().find`; the `&mut Todo`
      it yields is represented by the todo's index. */
  method GetMutTodo(todos: seq<Todo>, id: i16) returns (r: Option<nat>)
    ensures r == FindTodo(todos, id)
  {
    var i := 0;
    while i < |todos|
      invariant 0 <= i <= |todos|
      invariant forall k :: 0 <= k < i ==> todos[k].id != id
    {
      if todos[i].id == id {
        return Some(i);
      }
      i := i + 1;
    }
    return None;
  }

  /** The first-match lookup depends on the ids alone. */
  lemma FindTodoSeesOnlyIds(a: seq<Todo>, b: seq<Todo>, id: i16)
    requires |a| == |b|
    requires forall k :: 0 <= k < |a| ==> a[k].id == b[k].id
    ensures FindTodo(a, id) == FindTodo(b, id)
  {
  }

  // ---------------------------------------------------------------------
  // The reducers
  // ---------------------------------------------------------------------

  /** What `todo_reducer` returns for the todo list `todos`. */
  function TodoReduce(todos: seq<Todo>, action: Action): seq<Todo>
  {
    match action
    case Visibility(_) => todos
    case Todos(Add(title)) => todos + [NewTodo(NewId(|todos|), title)]
    case Todos(Toggle(id)) =>
      (match FindTodo(todos, id)
       case None => todos
       case Some(i) => todos[i := todos[i].(completed := !todos[i].completed)])
    case Todos(Remove(id)) =>
      (match FindTodo(todos, id)
       case None => todos
       case Some(i) => todos[i := todos[i].(deleted := true)])
  }

  /** `todo_reducer`: copies the list, then pushes a new todo or updates the
      todo found by `get_mut_todo` in place. */
  method TodoReducer(todos: seq<Todo>, action: Action) returns (newState: seq<Todo>)
    ensures newState == TodoReduce(todos, action)
  {
    newState := todos;
    match action {
      case Todos(Add(title)) =>
        var newId := NewId(|newState|);
        newState := newState + [NewTodo(newId, title)];
      case Todos(Toggle(id)) =>
        var found := GetMutTodo(newState, id);
        if found.Some? {
          var i := found.value;
          if newState[i].completed {
            newState := newState[i := newState[i].(completed := false)];
          } else {
            newState := newState[i := newState[i].(completed := true)];
          }
        }
      case Todos(Remove(id)) =>
        var found := GetMutTodo(newState, id);
        if found.Some? {
          var i := found.value;
          newState := newState[i := newState[i].(deleted := true)];
        }
      case Visibility(_) =>
    }
  }

  /** `visibility_reducer`. */
  function VisibilityReduce(filter: VisibilityFilter, action: Action): (r: VisibilityFilter)
    ensures action.Visibility? ==> r == action.filter
    ensures action.Todos? ==> r == filter
  {
    match action
    case Visibility(f) => f
    case Todos(_) => filter
  }

  /** `reducer`: the todo list from `todo_reducer`, the filter from
      `visibility_reducer`. */
  function Reduce(s: State, action: Action): (r: State)
    ensures r.todos == TodoReduce(s.todos, action)
    ensures r.visibilityFilter == VisibilityReduce(s.visibilityFilter, action)
  {
    State(TodoReduce(s.todos, action), VisibilityReduce(s.visibilityFilter, action))
  }

  /** A visibility action changes only the filter; a todo action changes only
      the todo list, as `todo_reducer` says. */
  lemma ReduceFrames(s: State, action: Action)
    ensures action.Visibility? ==> Reduce(s, action) == s.(visibilityFilter := action.filter)
    ensures action.Todos? ==> Reduce(s, action) == s.(todos := TodoReduce(s.todos, action))
  {
  }

  /** `Add` appends exactly one new, active, undeleted todo whose id is the
      old length plus one, and keeps every earlier todo. */
  lemma AddAppends(todos: seq<Todo>, title: string)
    ensures var r := TodoReduce(todos, Todos(Add(title)));
      |r| == |todos| + 1 && r[..|todos|] == todos &&
      r[|todos|].title == title && !r[|todos|].completed && !r[|todos|].deleted
    ensures |todos| < 0x7fff ==> TodoReduce(todos, Todos(Add(title)))[|todos|].id as int == |todos| + 1
  {
  }

  /** `Toggle(id)` flips `completed` on the first todo with that id and on
      nothing else; with no such todo the list is unchanged. */
  lemma ToggleFlipsFirstMatch(todos: seq<Todo>, id: i16)
    ensures var r := TodoReduce(todos, Todos(Toggle(id)));
      |r| == |todos| &&
      forall j :: 0 <= j < |todos| ==>
        r[j] == if IsFirstWithId(todos, id, j) then todos[j].(completed := !todos[j].completed) else todos[j]
    ensures (forall k :: 0 <= k < |todos| ==> todos[k].id != id) ==> TodoReduce(todos, Todos(Toggle(id))) == todos
  {
  }

  /** Toggling the same id twice gives back the original list. */
  lemma ToggleTwiceRestores(todos: seq<Todo>, id: i16)
    ensures TodoReduce(TodoReduce(todos, Todos(Toggle(id))), Todos(Toggle(id))) == todos
  {
  }

  /** `Remove(id)` keeps the length and marks the first todo with that id as
      deleted, touching nothing else. */
  lemma RemoveMarksFirstMatch(todos: seq<Todo>, id: i16)
    ensures var r := TodoReduce(todos, Todos(Remove(id)));
      |r| == |todos| &&
      forall j :: 0 <= j < |todos| ==>
        r[j] == if IsFirstWithId(todos, id, j) then todos[j].(deleted := true) else todos[j]
    ensures (forall k :: 0 <= k < |todos| ==> todos[k].id != id) ==> TodoReduce(todos, Todos(Remove(id))) == todos
  {
  }

  /** Removing the same id twice is the same as removing it once. */
  lemma RemoveIdempotent(todos: seq<Todo>, id: i16)
    ensures TodoReduce(TodoReduce(todos, Todos(Remove(id))), Todos(Remove(id))) == TodoReduce(todos, Todos(Remove(id)))
  {
  }

  // ---------------------------------------------------------------------
  // The id invariant over a run of the application
  // ---------------------------------------------------------------------

  /** The todo at index `i` has id `i + 1`. */
  ghost predicate IdsArePositions(todos: seq<Todo>)
  {
    forall i :: 0 <= i < |todos| ==> todos[i].id as int == i + 1
  }

  /** The state reached by dispatching `actions`, in order, from `s`. */
  function Replay(s: State, actions: seq<Action>): State
  {
    if actions == [] then s
    else Reduce(Replay(s, actions[..|actions| - 1]), actions[|actions| - 1])
  }

  /** No action shortens the todo list. */
  lemma {:induction false} ReplayNeverShrinks(s: State, actions: seq<Action>)
    ensures |s.todos| <= |Replay(s, actions).todos|
  {
    if actions != [] {
      ReplayNeverShrinks(s, actions[..|actions| - 1]);
    }
  }

  /** One reducer step keeps ids equal to positions while ids still fit. */
  lemma ReduceKeepsIds(s: State, action: Action)
    requires IdsArePositions(s.todos) && |s.todos| < 0x7fff
    ensures IdsArePositions(Reduce(s, action).todos)
  {
  }

  /** Any run of actions from a state whose ids are positions (such as
      `with_defaults`) keeps ids equal to positions, as long as the list stays
      below 32767 todos. */
  lemma {:induction false} ReplayKeepsIds(s: State, actions: seq<Action>)
    requires IdsArePositions(s.todos)
    requires |Replay(s, actions).todos| < 0x7fff
    ensures IdsArePositions(Replay(s, actions).todos)
  {
    if actions != [] {
      var before := actions[..|actions| - 1];
      ReplayNeverShrinks(Replay(s, before), [actions[|actions| - 1]]);
      assert [actions[|actions| - 1]][..0] == [];
      ReplayKeepsIds(s, before);
      ReduceKeepsIds(Replay(s, before), actions[|actions| - 1]);
    }
  }

  // ---------------------------------------------------------------------
  // The rows `render` prints
  // ---------------------------------------------------------------------

  /** Whether `render` prints `t` under `filter`. */
  predicate Shown(t: Todo, filter: VisibilityFilter)
  {
    !t.deleted &&
    match filter
    case ShowAll => true
    case ShowCompleted => t.completed
    case ShowActive => !t.completed
  }

  /** The todos `render` prints, in list order. */
  function Visible(todos: seq<Todo>, filter: VisibilityFilter): seq<Todo>
  {
    if todos == [] then []
    else Visible(todos[..|todos| - 1], filter) +
         (if Shown(todos[|todos| - 1], filter) then [todos[|todos| - 1]] else [])
  }

  /** The rows printed are exactly the list's todos that the filter shows:
      never a deleted one; under ShowAll every undeleted one, under
      ShowCompleted only completed ones, under ShowActive only active ones. */
  lemma {:induction false} VisibleMembers(todos: seq<Todo>, filter: VisibilityFilter)
    ensures forall t :: t in Visible(todos, filter) <==> t in todos && Shown(t, filter)
    ensures forall t :: t in Visible(todos, filter) ==> !t.deleted
  {
    if todos != [] {
      var front := todos[..|todos| - 1];
      VisibleMembers(front, filter);
      assert todos == front + [todos[|todos| - 1]];
    }
  }

  /** The projection preserves list order: it commutes with concatenation. */
  lemma {:induction false} VisibleOfConcat(a: seq<Todo>, b: seq<Todo>, filter: VisibilityFilter)
    ensures Visible(a + b, filter) == Visible(a, filter) + Visible(b, filter)
  {
    if b == [] {
      assert a + b == a;
    } else {
      var front := b[..|b| - 1];
      assert (a + b)[..|a + b| - 1] == a + front;
      VisibleOfConcat(a, front, filter);
    }
  }

  /** Filtering the printed rows again prints the same rows. */
  lemma {:induction false} VisibleIdempotent(todos: seq<Todo>, filter: VisibilityFilter)
    ensures Visible(Visible(todos, filter), filter) == Visible(todos, filter)
  {
    if todos != [] {
      var front := todos[..|todos| - 1];
      var tail := if Shown(todos[|todos| - 1], filter) then [todos[|todos| - 1]] else [];
      VisibleIdempotent(front, filter);
      VisibleOfConcat(Visible(front, filter), tail, filter);
      if tail != [] {
        assert tail[..0] == [];
      }
    }
  }

  /** Every undeleted todo is printed under exactly one of ShowActive and
      ShowCompleted, and under ShowAll. */
  lemma {:induction false} VisiblePartition(todos: seq<Todo>)
    ensures |Visible(todos, ShowAll)| == |Visible(todos, ShowActive)| + |Visible(todos, ShowCompleted)|
  {
    if todos != [] {
      VisiblePartition(todos[..|todos| - 1]);
    }
  }

  /** The selection logic of `render`: loops over the indices and collects the
      todos it would pass to `print_todo`. */
  method Render(state: State) returns (shown: seq<Todo>)
    ensures shown == Visible(state.todos, state.visibilityFilter)
  {
    shown := [];
    for i := 0 to |state.todos|
      invariant shown == Visible(state.todos[..i], state.visibilityFilter)
    {
      assert state.todos[..i + 1][..i] == state.todos[..i];
      var todo := state.todos[i];
      if !todo.deleted {
        match state.visibilityFilter {
          case ShowAll => shown := shown + [todo];
          case ShowCompleted => if todo.completed { shown := shown + [todo]; }
          case ShowActive => if !todo.completed { shown := shown + [todo]; }
        }
      }
    }
    assert state.todos[..|state.todos|] == state.todos;
  }

  /** The application's wiring: the generic store over the todo reducer,
      starting from `with_defaults`, with `render` subscribed, driven through
      add, toggle, remove and show. */
  method Session()
  {
    var store := new Redux.Store<State, Action>.CreateStore(Reduce, WithDefaults());
    store.Subscribe(Redux.Listener(0));

    store.Dispatch(Todos(Add("buy milk")));
    var s := store.GetState();
    assert s == State([Todo(1, "buy milk", false, false)], ShowAll);

    store.Dispatch(Todos(Toggle(1)));
    s := store.GetState();
    assert s == State([Todo(1, "buy milk", true, false)], ShowAll);

    store.Dispatch(Todos(Remove(1)));
    s := store.GetState();
    assert s == State([Todo(1, "buy milk", true, true)], ShowAll);
    var rows := Render(s);
    assert rows == [];

    store.Dispatch(Visibility(ShowCompleted));
    var again := store.GetState();
    assert again.todos == s.todos && again.visibilityFilter == ShowCompleted;
  }
}
