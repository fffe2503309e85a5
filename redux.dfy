/** The generic Redux-style store of the library crate (src/lib.rs).

    A store owns the current state, a reducer, and two append-only lists of
    callbacks: listeners `fn(&T)` and middlewares `fn(&T, U)`.  Callbacks are
    opaque here; what `dispatch` does with them is recorded in a ghost trace of
    events, so that "who was called, in which order, with which state" can be
    stated and proved.
 */
module Redux {

  /** A registered listener, known only by its identity. */
  datatype Listener = Listener(id: nat)

  /** A registered middleware, known only by its identity. */
  datatype Middleware = Middleware(id: nat)

  /** One callback invocation made by `dispatch`. */
  datatype Event<S, A> =
    | MiddlewareCall(middleware: Middleware, state: S, action: A)
    | ListenerCall(listener: Listener, state: S)

  /** The middleware invocations of one dispatch: each registered middleware,
      in registration order, given the state `s` and the action `a`. */
  function MiddlewareCalls<S, A>(ms: seq<Middleware>, s: S, a: A): (evs: seq<Event<S, A>>)
    ensures |evs| == |ms|
    ensures forall k :: 0 <= k < |ms| ==> evs[k] == MiddlewareCall(ms[k], s, a)
  {
    if ms == [] then []
    else MiddlewareCalls(ms[..|ms| - 1], s, a) + [MiddlewareCall(ms[|ms| - 1], s, a)]
  }

  /** The listener invocations of one dispatch: each registered listener, in
      registration order, given the state `s`. */
  function ListenerCalls<S, A>(ls: seq<Listener>, s: S): (evs: seq<Event<S, A>>)
    ensures |evs| == |ls|
    ensures forall k :: 0 <= k < |ls| ==> evs[k] == ListenerCall(ls[k], s)
  {
    if ls == [] then []
    else ListenerCalls(ls[..|ls| - 1], s) + [ListenerCall(ls[|ls| - 1], s)]
  }

  /** Everything one dispatch calls: all middlewares, then all listeners. */
  function DispatchEvents<S, A>(ms: seq<Middleware>, ls: seq<Listener>, s: S, a: A): seq<Event<S, A>>
  {
    MiddlewareCalls(ms, s, a) + ListenerCalls(ls, s)
  }

  /** The middlewares that a trace shows being called, in call order. */
  function CalledMiddlewares<S, A>(evs: seq<Event<S, A>>): seq<Middleware>
  {
    if evs == [] then []
    else (if evs[0].MiddlewareCall? then [evs[0].middleware] else []) + CalledMiddlewares(evs[1..])
  }

  /** The listeners that a trace shows being called, in call order. */
  function CalledListeners<S, A>(evs: seq<Event<S, A>>): seq<Listener>
  {
    if evs == [] then []
    else (if evs[0].ListenerCall? then [evs[0].listener] else []) + CalledListeners(evs[1..])
  }

  /** Projecting a trace onto its callees commutes with concatenation. */
  lemma {:induction false} CalledOfConcat<S, A>(x: seq<Event<S, A>>, y: seq<Event<S, A>>)
    ensures CalledMiddlewares(x + y) == CalledMiddlewares(x) + CalledMiddlewares(y)
    ensures CalledListeners(x + y) == CalledListeners(x) + CalledListeners(y)
  {
    if x == [] {
      assert x + y == y;
    } else {
      assert (x + y)[1..] == x[1..] + y;
      CalledOfConcat(x[1..], y);
    }
  }

  /** The middleware calls of a dispatch invoke exactly the registered
      middlewares, each once, in registration order, and no listener. */
  lemma {:induction false} MiddlewareCallsCallees<S, A>(ms: seq<Middleware>, s: S, a: A)
    ensures CalledMiddlewares(MiddlewareCalls(ms, s, a)) == ms
    ensures CalledListeners(MiddlewareCalls(ms, s, a)) == []
  {
    if ms != [] {
      var front := ms[..|ms| - 1];
      var last: seq<Event<S, A>> := [MiddlewareCall(ms[|ms| - 1], s, a)];
      MiddlewareCallsCallees(front, s, a);
      CalledOfConcat(MiddlewareCalls(front, s, a), last);
      assert ms == front + [ms[|ms| - 1]];
    }
  }

  /** The listener calls of a dispatch invoke exactly the registered
      listeners, each once, in registration order, and no middleware. */
  lemma {:induction false} ListenerCallsCallees<S, A>(ls: seq<Listener>, s: S)
    ensures CalledListeners<S, A>(ListenerCalls(ls, s)) == ls
    ensures CalledMiddlewares<S, A>(ListenerCalls(ls, s)) == []
  {
    if ls != [] {
      var front := ls[..|ls| - 1];
      var last: seq<Event<S, A>> := [ListenerCall(ls[|ls| - 1], s)];
      ListenerCallsCallees<S, A>(front, s);
      CalledOfConcat(ListenerCalls<S, A>(front, s), last);
      assert ls == front + [ls[|ls| - 1]];
    }
  }

  /** One dispatch calls every middleware exactly once, in registration order,
      then every listener exactly once, in registration order; every call sees
      the committed state and every middleware call the dispatched action. */
  lemma {:induction false} DispatchCallsEachOnceInOrder<S, A>(ms: seq<Middleware>, ls: seq<Listener>, s: S, a: A)
    ensures CalledMiddlewares(DispatchEvents(ms, ls, s, a)) == ms
    ensures CalledListeners(DispatchEvents(ms, ls, s, a)) == ls
    ensures forall e :: e in DispatchEvents(ms, ls, s, a) ==> e.state == s
    ensures forall e :: e in DispatchEvents(ms, ls, s, a) && e.MiddlewareCall? ==> e.action == a
    ensures forall i, j :: 0 <= i < j < |DispatchEvents(ms, ls, s, a)| && DispatchEvents(ms, ls, s, a)[i].ListenerCall?
              ==> DispatchEvents(ms, ls, s, a)[j].ListenerCall?
  {
    MiddlewareCallsCallees(ms, s, a);
    ListenerCallsCallees<S, A>(ls, s);
    CalledOfConcat(MiddlewareCalls(ms, s, a), ListenerCalls<S, A>(ls, s));
  }

  /** The store of src/lib.rs. */
  class Store<S, A> {
    var state: S
    var listeners: seq<Listener>
    var middlewares: seq<Middleware>
    const reducer: (S, A) -> S
    /** Every callback invocation made so far, oldest first. */
    ghost var trace: seq<Event<S, A>>

    constructor CreateStore(reducer: (S, A) -> S, initialState: S)
      ensures state == initialState && this.reducer == reducer
      ensures listeners == [] && middlewares == [] && trace == []
    {
      state := initialState;
      listeners := [];
      middlewares := [];
      this.reducer := reducer;
      trace := [];
    }

    method Subscribe(listener: Listener)
      modifies this
      ensures listeners == old(listeners) + [listener]
      ensures state == old(state) && middlewares == old(middlewares) && trace == old(trace)
    {
      listeners := listeners + [listener];
    }

    method ApplyMiddleware(middleware: Middleware)
      modifies this
      ensures middlewares == old(middlewares) + [middleware]
      ensures state == old(state) && listeners == old(listeners) && trace == old(trace)
    {
      middlewares := middlewares + [middleware];
    }

    method GetState() returns (s: S)
      ensures s == state
    {
      s := state;
    }

    /** Replaces the state by the reducer's result, then calls every
        middleware with the new state and the action, then every listener
        with the new state. */
    method Dispatch(action: A)
      modifies this
      ensures state == reducer(old(state), action)
      ensures listeners == old(listeners) && middlewares == old(middlewares)
      ensures trace == old(trace) + DispatchEvents(middlewares, listeners, state, action)
    {
      state := reducer(state, action);
      for i := 0 to |middlewares|
        invariant state == reducer(old(state), action)
        invariant listeners == old(listeners) && middlewares == old(middlewares)
        invariant trace == old(trace) + MiddlewareCalls(middlewares[..i], state, action)
      {
        assert middlewares[..i + 1][..i] == middlewares[..i];
        trace := trace + [MiddlewareCall(middlewares[i], state, action)];
      }
      assert middlewares[..|middlewares|] == middlewares;
      ghost var afterMiddlewares := trace;
      for i := 0 to |listeners|
        invariant state == reducer(old(state), action)
        invariant listeners == old(listeners) && middlewares == old(middlewares)
        invariant trace == afterMiddlewares + ListenerCalls(listeners[..i], state)
      {
        assert listeners[..i + 1][..i] == listeners[..i];
        trace := trace + [ListenerCall(listeners[i], state)];
      }
      assert listeners[..|listeners|] == listeners;
    }
  }
}
