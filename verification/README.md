# gi-jdbc: parameter store, SQL reconstruction and the compound listener

A Dafny model of two pieces of the gi-jdbc instrumentation shim.

**Prepared statement information** (`PreparedStatementInformation`, module
`StatementInfo`). A bean holding a constant SQL text and a map from zero-based
parameter position to the bound `Value`. `setParameterValue(position, v)`
writes key `position - 1`, overwriting any earlier value. `getSqlWithValues()`
scans the SQL one character at a time with a counter `currentParameter`: a `?`
is substituted while the counter is at most the number of keys in the map,
by the rendering of the value at that key or of the empty `Value` when the key
is absent; every other character, and every `?` after the counter has passed
the map size, is copied as is. The scan does not know about quoted SQL
literals. The class is modelled imperatively: the map is a field that
`SetParameterValue` reassigns, and `GetSqlWithValues` is the character loop,
proved against the function `Reconstruction.Reconstruct`. The properties of
the scan are lemmas about that function (module `Reconstruction`), among them
an independent per-character definition (`Piece`: the k-th `?`, counted from
0, is replaced iff k is at most the number of keys) and the proof that the
scan equals it.

How a `Value` prints is not visible in the source, so every reconstruction
takes the rendering as a parameter `render: Value<T> -> string`; `Bound(raw)`
is `new Value(raw)` and `Unset` is `new Value()`, whose text stands in for an
absent key. Positions are Java `int`s (`int32`), and the key `position - 1` is
computed with 32-bit wrap-around (`KeyOf`).

**Compound event listener** (`CompoundJdbcEventListener`, module `Listener`).
An append-only list of listeners and, for every event of the listener
interface, a loop that calls the same event on each listener in list order.
There is no try/catch: the first listener that throws ends the loop, the
listeners after it are not called, and the exception reaches the caller.
Listeners are opaque ids, and what each one does is a parameter of the
dispatch: a function of the call's index in the list and of the listener, so a
listener registered twice may answer differently on each call. All the
fan-out methods share one method, `Dispatch`, over an `EventKind` with one
constructor per overload; `Target` gives the event the listeners actually
receive, which differs only for `onAfterExecuteUpdate(PreparedStatement,
info)`, forwarded as `onBeforeExecuteUpdate(PreparedStatement, info)`.
`onBeforeExecuteUpdateWithReturnValue` builds a map from listener to result,
specified by the function `Collect`; the concurrent map refuses a `null`
result by throwing, which is modelled as the failure `NullResult`.
`onAfterPreparedStatementSet` and `onAfterCallableStatementSet` call no
listener; they only set a parameter on the statement information. No event
method changes the listener list (none of them has it in its frame).

Two consequences of the code are worth stating plainly:

- Substitution stops once `currentParameter` exceeds `parameterValues.size()`
  (PreparedStatementInformation.java:39). The guard compares the counter
  with the number of bound keys, not with the highest key. With an empty map
  only the first `?` is substituted (`EmptyStoreExample`). With only
  position 3 bound, the third `?` stays literal although its key is bound
  (`SparseBindingExample`). Once keys `0 .. N-1` are bound, N the number of
  `?`, every placeholder is replaced (`FullyBoundReplacesAll`).
- No event loop has a try/catch (CompoundJdbcEventListener.java:46-318), so
  every event is fail-fast: the first listener that throws ends the loop, and
  its exception reaches the caller (`Dispatch`, `FailFastExample`).

The scan's counter is an unbounded integer here. In Java it is bumped at
most once per character, and a Java string has at most 2^31 - 1 characters,
so the `int` counter never overflows and the two agree.

## Model

| member | source | states |
|---|---|---|
| `Values.KeyOf` | src/main/java/com/gannalyo/sqlinterceptor/info/PreparedStatementInformation.java:52-54 | the key written for a position is the Java `int` value `position - 1`: in 32-bit range and congruent to `position - 1` modulo 2^32, non-negative for every position from 1 up |
| `StatementInfo.PreparedStatementInformation.constructor` | src/main/java/com/gannalyo/sqlinterceptor/info/PreparedStatementInformation.java:21-30 | a new bean holds the given SQL, which `getSql` returns (the field is a constant, never reassigned), and an empty map |
| `StatementInfo.PreparedStatementInformation.SetParameterValue` | src/main/java/com/gannalyo/sqlinterceptor/info/PreparedStatementInformation.java:52-54 | key `position - 1` now maps to `Value(v)`, overwriting any earlier value; every other key is unchanged; the map keeps its size on a rebind and grows by exactly one on a new key; every stored binding stays a bound `Value` |
| `StatementInfo.PreparedStatementInformation.GetParameterValues` | src/main/java/com/gannalyo/sqlinterceptor/info/PreparedStatementInformation.java:56-58 | returns the current bindings as a value: exactly the keys set so far, each holding the bound `Value` stored for it, never the empty one (the Java alias is listed under Left out) |
| `StatementInfo.PreparedStatementInformation.GetSqlWithValues` | src/main/java/com/gannalyo/sqlinterceptor/info/PreparedStatementInformation.java:32-50 | the character loop returns exactly `Reconstruct(sql, map, render)` and changes neither the SQL nor the map |
| `StatementInfo.ReconstructTwice` | src/main/java/com/gannalyo/sqlinterceptor/info/PreparedStatementInformation.java:32-50 | two reconstructions with no binding in between return equal strings |
| `Reconstruction.Consumed` | src/main/java/com/gannalyo/sqlinterceptor/info/PreparedStatementInformation.java:36-43 | after a text, the counter equals min(number of `?` in it, map size + 1): exactly that many substitutions take place |
| `Reconstruction.ReconstructIsPiecewise` | src/main/java/com/gannalyo/sqlinterceptor/info/PreparedStatementInformation.java:37-46 | the scan's output is the concatenation, in order, of one piece per character: a non-`?` character is itself; the k-th `?` (0-based) becomes the rendering of key k (or of the empty value when k is unbound) iff k <= map size, and stays `?` otherwise |
| `Reconstruction.AppendPlain` | src/main/java/com/gannalyo/sqlinterceptor/info/PreparedStatementInformation.java:44-46 | text without `?` is copied verbatim and in order after what precedes it, and does not move the counter |
| `Reconstruction.NoPlaceholderUnchanged` | src/main/java/com/gannalyo/sqlinterceptor/info/PreparedStatementInformation.java:37-46 | a SQL text without `?` is returned unchanged, whatever is bound |
| `Reconstruction.PlaceholderBeyondStoreIsLiteral` | src/main/java/com/gannalyo/sqlinterceptor/info/PreparedStatementInformation.java:39 | a `?` preceded by more `?` than the map has keys is emitted literally |
| `Reconstruction.FullyBoundReplacesAll` | src/main/java/com/gannalyo/sqlinterceptor/info/PreparedStatementInformation.java:39-43 | when keys 0 .. N-1 are bound, N the number of `?`, every `?` becomes the rendering of its own binding |
| `Reconstruction.EmptyStoreExample` | src/main/java/com/gannalyo/sqlinterceptor/info/PreparedStatementInformation.java:39-42 | with an empty map, `a?b?` (a and b any texts without `?`, e.g. `a=` and ` and b=`) becomes a + empty value's text + b + `?`: only the first `?` is substituted |
| `Reconstruction.SparseBindingExample` | src/main/java/com/gannalyo/sqlinterceptor/info/PreparedStatementInformation.java:39 | with only key 2 bound (size 1), `a?b?c?` (a, b, c without `?`) becomes a + empty-value text + b + empty-value text + c + a literal `?`, although key 2 is bound |
| `Reconstruction.RebindKeepsLatest` | src/main/java/com/gannalyo/sqlinterceptor/info/PreparedStatementInformation.java:52-54 | binding a key twice reconstructs exactly as binding only the second value |
| `StatementInfo.RebindThenReconstruct` | src/main/java/com/gannalyo/sqlinterceptor/info/PreparedStatementInformation.java:52-54 | two `setParameterValue` calls on one position leave the map and the reconstructed SQL exactly as a single call with the second value would |
| `Listener.TargetRedirectsOnlyAfterExecuteUpdate` | src/main/java/com/gannalyo/sqlinterceptor/listener/CompoundJdbcEventListener.java:109-113 | listeners receive the event they were sent with its arguments, except that `onAfterExecuteUpdate(PreparedStatement, info)` arrives as `onBeforeExecuteUpdate(PreparedStatement, info)`; no listener ever receives the former |
| `Listener.CompoundJdbcEventListener.constructor` | src/main/java/com/gannalyo/sqlinterceptor/listener/CompoundJdbcEventListener.java:32-34 | a new compound listener has an empty list |
| `Listener.CompoundJdbcEventListener.AddListener` | src/main/java/com/gannalyo/sqlinterceptor/listener/CompoundJdbcEventListener.java:36-38 | `addListender` appends at the end: length grows by one, earlier entries keep their order, duplicates are kept |
| `Listener.CompoundJdbcEventListener.GetEventListeners` | src/main/java/com/gannalyo/sqlinterceptor/listener/CompoundJdbcEventListener.java:40-42 | returns exactly the current list in registration order, without changing it |
| `Listener.CompoundJdbcEventListener.Dispatch` | src/main/java/com/gannalyo/sqlinterceptor/listener/CompoundJdbcEventListener.java:45-319 | every fan-out event method: call j goes to list entry j with the forwarded event, in order; with no exception every entry is called; otherwise the calls stop at the first listener that throws and its exception is returned; nothing else changes |
| `Listener.DispatchOrderExample` | src/main/java/com/gannalyo/sqlinterceptor/listener/CompoundJdbcEventListener.java:95-99 | listeners A, B, C registered in that order are called A, then B, then C |
| `Listener.FailFastExample` | src/main/java/com/gannalyo/sqlinterceptor/listener/CompoundJdbcEventListener.java:95-99 | when B throws, A and B were called, C is not, and B's exception propagates |
| `Listener.CompoundJdbcEventListener.OnBeforeExecuteUpdateWithReturnValue` | src/main/java/com/gannalyo/sqlinterceptor/listener/CompoundJdbcEventListener.java:116-122 | returns `Collect(list, react)`; the listeners called are a prefix of the list, all of it on success, and on failure the last one called is the one that threw or returned null |
| `Listener.CollectSucceedsIff` | src/main/java/com/gannalyo/sqlinterceptor/listener/CompoundJdbcEventListener.java:116-122 | the result map is returned iff every listener returns a non-null result |
| `Listener.CollectFirstFailure` | src/main/java/com/gannalyo/sqlinterceptor/listener/CompoundJdbcEventListener.java:116-122 | otherwise the failure raised is that of the first listener that threw or returned null |
| `Listener.CollectKeys` | src/main/java/com/gannalyo/sqlinterceptor/listener/CompoundJdbcEventListener.java:116-122 | the map's keys are exactly the distinct listeners of the list, so there are at most as many keys as list entries |
| `Listener.CollectLastWins` | src/main/java/com/gannalyo/sqlinterceptor/listener/CompoundJdbcEventListener.java:116-122 | each listener maps to the result of its last call: a later duplicate registration overwrites the earlier entry |
| `Listener.CollectFailureSticks` | src/main/java/com/gannalyo/sqlinterceptor/listener/CompoundJdbcEventListener.java:116-122 | once a call fails, later listeners cannot change the outcome: the partial map is discarded and the failure stands |
| `Listener.CompoundJdbcEventListener.OnAfterPreparedStatementSet` | src/main/java/com/gannalyo/sqlinterceptor/listener/CompoundJdbcEventListener.java:228-230 | calls no listener and only performs `setParameterValue(parameterIndex, value)` on the given statement information; the listener list is unchanged |
| `Listener.CompoundJdbcEventListener.OnAfterCallableStatementSet` | src/main/java/com/gannalyo/sqlinterceptor/listener/CompoundJdbcEventListener.java:233-235 | calls no listener (it is given no listener behaviour and returns no trace) and delegates exactly one `setParameterValue(name, value)` call |

## Left out

- Console output: the two `System.out.println` calls in `onBeforeExecuteQuery(info)` are I/O with no effect on dispatch.
- What listeners do: listener subclasses are not part of this model. Their exceptions and results are function parameters of each dispatch.
- JDBC payloads: `PreparedStatement`, `SQLException`, elapsed nanoseconds, update counts, row counts and result-set information are one opaque payload per event. It is passed through unchanged.
- `Value`, its `toString` and the `new Value()` default are not part of this model; rendering is a parameter.
- `CallableStatementInformation` is not part of this model. `OnAfterCallableStatementSet` returns the one delegated call as a value instead of changing that object.
- Null listeners: `addListender(null)` would make every later dispatch throw a `NullPointerException` at that entry. Listeners here are always non-null ids.
- Listeners that are themselves compound listeners, and listener identity beyond equality of ids, are not modelled.
- Thread safety of `ConcurrentHashMap` and concurrent dispatch are not modelled; every operation is sequential.
- Java strings are sequences of UTF-16 code units; the model uses Dafny `char` sequences and compares single characters with `?` in the same way.
- `getParameterValues` returns the internal mutable `HashMap` itself, so a caller can change the bindings through it. The model's `GetParameterValues` returns the map as a value: that aliasing is not modelled. Through that alias a caller could also store `null` or an empty `Value`. The invariant `Valid` (every stored binding is bound) holds only because the model has no such path. `getSql` is covered by the constructor row.
- `Listener.CompoundJdbcEventListener.GetEventListeners`: Java returns `Collections.unmodifiableList`, a live read-only view that shows later `addListender` calls. The model returns a snapshot of the list at the time of the call.
- Null references: `new PreparedStatementInformation(null)` makes `getSqlWithValues` throw a `NullPointerException`, and a null statement information makes `onAfterPreparedStatementSet` throw one. Dafny strings and class references here are never null, so these error paths are not modelled.
