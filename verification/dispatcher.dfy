/**
 * The compound event listener: an append-only list of listeners, and one
 * loop per event that calls the same event on every listener in list
 * order. The loops have no try/catch: the first listener that throws ends
 * the loop and its exception reaches the caller.
 *
 * Listeners are opaque ids. What a listener does when called is not part of
 * this model; each dispatch takes it as a function of the call's index in
 * the list and the listener, so that a listener registered twice may answer
 * differently on its two calls.
 */
module Listener {
  import opened Wrappers
  import opened Values
  import opened StatementInfo

  /**
   * The events that the compound listener fans out, one per overload of the
   * listener interface; the suffix names the overload's leading argument.
   */
  datatype EventKind =
    | BeforeGetConnection | AfterGetConnection | ConnectionWrapped
    | BeforeAddBatchInfo | AfterAddBatchInfo | BeforeAddBatchSql | AfterAddBatchSql
    | BeforeExecuteInfo | AfterExecuteInfo | BeforeExecuteSql | AfterExecuteSql
    | BeforeExecuteUpdateStatement | AfterExecuteUpdateStatement
    | BeforeExecuteUpdateInfo | AfterExecuteUpdateInfo | AfterExecuteUpdateWithParams
    | BeforeExecuteUpdateSql | AfterExecuteUpdateSql
    | BeforeExecuteBatch | AfterExecuteBatch
    | BeforeExecuteQueryInfo | AfterExecuteQueryInfo | BeforeExecuteQuerySql | AfterExecuteQuerySql
    | AfterGetResultSet | BeforeResultSetNext | AfterResultSetNext | AfterResultSetClose
    | AfterResultSetGetLabel | AfterResultSetGetIndex
    | BeforeCommit | AfterCommit | BeforeRollback | AfterRollback
    | AfterConnectionClose | AfterStatementClose

  /** One event with its arguments (statement, information bean, elapsed time, error, ...), passed through untouched. */
  datatype Event<P> = Event(kind: EventKind, payload: P)

  /** One call of one listener. */
  datatype Invocation<L, P> = Invocation(listener: L, event: Event<P>)

  /**
   * The event each listener receives when the compound one receives `e`.
   * `onAfterExecuteUpdate(PreparedStatement, info)` is forwarded as
   * `onBeforeExecuteUpdate(PreparedStatement, info)`.
   */
  function Target<P>(e: Event<P>): Event<P> {
    if e.kind == AfterExecuteUpdateStatement then Event(BeforeExecuteUpdateStatement, e.payload) else e
  }

  /**
   * Forwarding keeps the arguments, changes the event only for
   * `onAfterExecuteUpdate(PreparedStatement, info)`, and so no listener ever
   * receives that event from the compound one.
   */
  lemma TargetRedirectsOnlyAfterExecuteUpdate<P>(e: Event<P>)
    ensures Target(e).payload == e.payload
    ensures Target(e) != e <==> e.kind == AfterExecuteUpdateStatement
    ensures e.kind == AfterExecuteUpdateStatement ==> Target(e).kind == BeforeExecuteUpdateStatement
    ensures Target(e).kind != AfterExecuteUpdateStatement
  {
  }

  /** What one listener does when asked for a value: it returns one (possibly `null`), or it throws. */
  datatype Reaction<R, X> = Completes(result: Option<R>) | Throws(exc: X)

  /** Why collecting per-listener results failed: a listener threw, or it returned `null`, which the concurrent map refuses. */
  datatype CollectError<X> = ListenerThrew(exc: X) | NullResult

  /** The failure, if any, that one reaction causes while the results are collected. */
  function Failed<R, X>(r: Reaction<R, X>): Option<CollectError<X>> {
    match r
    case Throws(x) => Some(ListenerThrew(x))
    case Completes(None) => Some(NullResult)
    case Completes(Some(_)) => None
  }

  /**
   * The map of results built for `ls` by a loop that puts each listener's
   * result under that listener, in list order, and stops at the first
   * failure. Call `i` goes to `ls[i]`.
   */
  function Collect<L(==), R, X>(ls: seq<L>, react: (nat, L) -> Reaction<R, X>): Result<map<L, R>, CollectError<X>>
    decreases |ls|
  {
    if ls == [] then Success(map[])
    else
      var i := |ls| - 1;
      match Collect(ls[..i], react)
      case Failure(f) => Failure(f)
      case Success(m) =>
        match react(i, ls[i])
        case Throws(x) => Failure(ListenerThrew(x))
        case Completes(None) => Failure(NullResult)
        case Completes(Some(v)) => Success(m[ls[i] := v])
  }

  /** Collecting succeeds exactly when every listener returns a non-null result. */
  lemma {:induction false} CollectSucceedsIff<L, R, X>(ls: seq<L>, react: (nat, L) -> Reaction<R, X>)
    ensures Collect(ls, react).Success? <==> forall j :: 0 <= j < |ls| ==> Failed(react(j, ls[j])).None?
  {
    if ls != [] {
      var i := |ls| - 1;
      CollectSucceedsIff(ls[..i], react);
    }
  }

  /** On failure, the error is that of the first listener whose call failed. */
  lemma {:induction false} CollectFirstFailure<L, R, X>(ls: seq<L>, react: (nat, L) -> Reaction<R, X>, n: nat)
    requires n < |ls|
    requires Failed(react(n, ls[n])).Some?
    requires forall j :: 0 <= j < n ==> Failed(react(j, ls[j])).None?
    ensures Collect(ls, react) == Failure(Failed(react(n, ls[n])).value)
  {
    var i := |ls| - 1;
    if n < i {
      CollectFirstFailure(ls[..i], react, n);
    } else {
      CollectSucceedsIff(ls[..i], react);
    }
  }

  /**
   * A successful collection maps exactly the distinct listeners of the list,
   * so it has at most as many keys as the list has entries.
   */
  lemma {:induction false} CollectKeys<L, R, X>(ls: seq<L>, react: (nat, L) -> Reaction<R, X>)
    requires Collect(ls, react).Success?
    ensures forall l :: l in Collect(ls, react).value <==> l in ls
    ensures |Collect(ls, react).value| <= |ls|
  {
    if ls != [] {
      var i := |ls| - 1;
      CollectKeys(ls[..i], react);
      forall l
        ensures l in ls <==> l in ls[..i] || l == ls[i]
      {
        if l in ls {
          var j :| 0 <= j < |ls| && ls[j] == l;
          if j < i { assert ls[..i][j] == l; }
        }
      }
    }
  }

  /**
   * A successful collection holds, for each listener, the result of its LAST
   * call: a later duplicate registration overwrites the earlier one's entry.
   */
  lemma {:induction false} CollectLastWins<L, R, X>(ls: seq<L>, react: (nat, L) -> Reaction<R, X>, j: nat)
    requires Collect(ls, react).Success?
    requires j < |ls|
    requires forall j' :: j < j' < |ls| ==> ls[j'] != ls[j]
    ensures ls[j] in Collect(ls, react).value
    ensures react(j, ls[j]) == Completes(Some(Collect(ls, react).value[ls[j]]))
  {
    var i := |ls| - 1;
    CollectSucceedsIff(ls, react);
    if j < i {
      CollectLastWins(ls[..i], react, j);
    }
  }

  /** Once a prefix of the list fails, the whole collection fails the same way. */
  lemma {:induction false} CollectFailureSticks<L, R, X>(ls: seq<L>, react: (nat, L) -> Reaction<R, X>, n: nat)
    requires n <= |ls|
    requires Collect(ls[..n], react).Failure?
    ensures Collect(ls, react) == Collect(ls[..n], react)
  {
    if n < |ls| {
      var i := |ls| - 1;
      assert ls[..i][..n] == ls[..n];
      CollectFailureSticks(ls[..i], react, n);
    } else {
      assert ls[..n] == ls;
    }
  }

  class CompoundJdbcEventListener<L(==)> {
    var eventListeners: seq<L>

    /** A new compound listener has no listeners. */
    constructor ()
      ensures eventListeners == []
    {
      eventListeners := [];
    }

    /** Appends at the end: earlier entries keep their order, and duplicates are kept. */
    method AddListener(listener: L)
      modifies this
      ensures eventListeners == old(eventListeners) + [listener]
      ensures |eventListeners| == |old(eventListeners)| + 1
      ensures eventListeners[..|old(eventListeners)|] == old(eventListeners)
    {
      eventListeners := eventListeners + [listener];
    }

    /**
     * The listeners in registration order, as they are at the time of the
     * call; the list itself is unchanged.
     */
    method GetEventListeners() returns (ls: seq<L>)
      ensures ls == eventListeners
    {
      ls := eventListeners;
    }

    /**
     * Any fan-out event: calls `Target(event)` on the listeners in list
     * order. `raises(i, l)` is what call `i`, to listener `l`, throws, if it
     * throws. The trace lists the calls made; the first exception stops the
     * loop and is returned in `raised`; otherwise every listener was called.
     * The listener list is not changed.
     */
    method Dispatch<P, X>(event: Event<P>, raises: (nat, L) -> Option<X>)
      returns (trace: seq<Invocation<L, P>>, raised: Option<X>)
      ensures |trace| <= |eventListeners|
      ensures forall j :: 0 <= j < |trace| ==> trace[j] == Invocation(eventListeners[j], Target(event))
      ensures raised.None? ==> |trace| == |eventListeners|
      ensures raised.None? <==> forall j :: 0 <= j < |eventListeners| ==> raises(j, eventListeners[j]).None?
      ensures raised.Some? ==> 0 < |trace| && raised == raises(|trace| - 1, eventListeners[|trace| - 1])
      ensures forall j :: 0 <= j < |trace| - 1 ==> raises(j, eventListeners[j]).None?
    {
      trace, raised := [], None;
      var i := 0;
      while i < |eventListeners|
        invariant 0 <= i <= |eventListeners|
        invariant |trace| == i
        invariant forall j :: 0 <= j < i ==> trace[j] == Invocation(eventListeners[j], Target(event))
        invariant forall j :: 0 <= j < i ==> raises(j, eventListeners[j]).None?
      {
        var listener := eventListeners[i];
        trace := trace + [Invocation(listener, Target(event))];
        var thrown := raises(i, listener);
        if thrown.Some? {
          raised := thrown;
          return;
        }
        i := i + 1;
      }
    }

    /**
     * `onBeforeExecuteUpdateWithReturnValue`: calls every listener in order
     * and puts its result into a map keyed by the listener. A throwing
     * listener, or one returning `null` (refused by the concurrent map),
     * stops the loop and the failure reaches the caller; the map built so
     * far is discarded.
     */
    method OnBeforeExecuteUpdateWithReturnValue<R, X>(react: (nat, L) -> Reaction<R, X>)
      returns (invoked: seq<L>, result: Result<map<L, R>, CollectError<X>>)
      ensures result == Collect(eventListeners, react)
      ensures |invoked| <= |eventListeners|
      ensures invoked == eventListeners[..|invoked|]
      ensures result.Success? ==> invoked == eventListeners
      ensures result.Failure? ==> 0 < |invoked| && Failed(react(|invoked| - 1, invoked[|invoked| - 1])) == Some(result.error)
      ensures forall j :: 0 <= j < |invoked| - 1 ==> Failed(react(j, invoked[j])).None?
    {
      var listenerParams: map<L, R> := map[];
      invoked := [];
      var i := 0;
      while i < |eventListeners|
        invariant 0 <= i <= |eventListeners|
        invariant invoked == eventListeners[..i]
        invariant Collect(eventListeners[..i], react) == Success(listenerParams)
        invariant forall j :: 0 <= j < i ==> Failed(react(j, invoked[j])).None?
      {
        var listener := eventListeners[i];
        invoked := invoked + [listener];
        assert eventListeners[..i + 1][..i] == eventListeners[..i];
        var reaction := react(i, listener);
        match reaction {
          case Throws(x) =>
            result := Failure(ListenerThrew(x));
            CollectFailureSticks(eventListeners, react, i + 1);
            return;
          case Completes(None) =>
            result := Failure(NullResult);
            CollectFailureSticks(eventListeners, react, i + 1);
            return;
          case Completes(Some(v)) =>
            listenerParams := listenerParams[listener := v];
        }
        i := i + 1;
      }
      assert eventListeners[..i] == eventListeners;
      result := Success(listenerParams);
    }

    /**
     * `onAfterPreparedStatementSet` calls no listener: it only binds the
     * parameter on the given statement information.
     */
    method OnAfterPreparedStatementSet<T>(info: PreparedStatementInformation<T>, parameterIndex: int32, value: T)
      requires info.Valid()
      modifies info
      ensures info.Valid()
      ensures info.parameterValues == old(info.parameterValues)[KeyOf(parameterIndex) := Bound(value)]
      ensures eventListeners == old(eventListeners)
    {
      info.SetParameterValue(parameterIndex, value);
    }

    /**
     * `onAfterCallableStatementSet` calls no listener: it delegates one named
     * `setParameterValue` call to the callable statement information, whose
     * state is not part of this model; the call is returned as a value.
     * Like `OnAfterPreparedStatementSet`, it is given no listener behaviour
     * and returns no trace: no listener is called.
     */
    method OnAfterCallableStatementSet<T>(parameterName: string, value: T)
      returns (delegated: NamedSet<T>)
      ensures delegated == NamedSet(parameterName, value)
    {
      delegated := NamedSet(parameterName, value);
    }
  }

  /** A `setParameterValue(name, value)` call on callable statement information. */
  datatype NamedSet<T> = NamedSet(name: string, value: T)

  /** Three listeners A, B, C that do not throw are called A, then B, then C. */
  method DispatchOrderExample<P>(a: nat, b: nat, c: nat, event: Event<P>)
    returns (trace: seq<Invocation<nat, P>>)
    ensures trace == [Invocation(a, Target(event)), Invocation(b, Target(event)), Invocation(c, Target(event))]
  {
    var compound := new CompoundJdbcEventListener<nat>();
    compound.AddListener(a);
    compound.AddListener(b);
    compound.AddListener(c);
    var raised: Option<bool>;
    trace, raised := compound.Dispatch(event, (i: nat, l: nat) => None);
  }

  /** When B throws, C is never called and B's exception reaches the caller. */
  method FailFastExample<P>(a: nat, b: nat, c: nat, event: Event<P>)
    returns (trace: seq<Invocation<nat, P>>, raised: Option<string>)
    ensures trace == [Invocation(a, Target(event)), Invocation(b, Target(event))]
    ensures raised == Some("thrown by the second listener")
  {
    var compound := new CompoundJdbcEventListener<nat>();
    compound.AddListener(a);
    compound.AddListener(b);
    compound.AddListener(c);
    var raises := (i: nat, l: nat) => if i == 1 then Some("thrown by the second listener") else None;
    trace, raised := compound.Dispatch(event, raises);
    assert raises(0, compound.eventListeners[0]).None?;
    assert raises(1, compound.eventListeners[1]).Some?;
  }
}
