# RedisTemplate, modelled in Dafny

This project models the client-side logic of Spring Data Redis's
`RedisTemplate`. The template is the central helper. It acquires a
connection, hands it to a callback, optionally wraps the callback in a
pipeline, and releases the connection again. The model covers five parts:

- **The execution engine** `execute(action, exposeConnection, pipeline)`.
  - The call opens, and so owns, a pipeline exactly when one is requested and
    the connection is not pipelined already.
  - Under an owned pipeline, a non-null callback result is an invalid-usage
    error, and a null one is replaced by the replies harvested from the
    pipeline.
  - A pipeline that was inherited is never closed.
  - The finally block closes an owned pipeline that is still open, then
    releases the connection.
  - The connection's openPipeline and closePipeline may throw.
- **Session execution** `execute(SessionCallback)`: bind a connection, run
  the session, unbind in the finally block.
- **Serializer configuration** `afterPropertiesSet`: each of the four role
  serializers left unset falls back to the default one. The call fails if a
  role fell back while the default is null.
- **Key encoding**: `rawKey` and `rawKeys`.
- **Bulk sort reassembly**: the flat reply of a SORT with GET patterns is cut
  into consecutive groups, one per record.
- **The lazily cached operation facades**: `opsForValue`, `opsForList`,
  `opsForSet`, `opsForZSet`, and the uncached `opsForHash`.

The connection, the connection factory and the thread-bound session binding
are not part of the template. They are modelled as abstract state in
`connections.dfy`:

- a connection's pipelined flag, its queue of pending replies and a log of the
  lifecycle calls made on it;
- the factory's bound flag and a log of acquire, release, bind and unbind
  calls.

A callback is a value: the replies of the commands it issues, and how it ends
(it returns null, returns a value, or throws). Java exceptions become the
`Failure` side of a `Result`.

Files:

- `common.dfy`: `Option`, `Result`, `Outcome`, `Error`, `Bytes`.
- `connections.dfy`: the `Connection` and `ConnectionFactory` classes.
- `execution.dfy`: `ExecPlan`, the plan of one `execute` call as a value, with
  lemmas about it. It also holds the corrected plan of the finding below.
- `template.dfy`: the `RedisTemplate` class. Its `Execute` method is proved
  to carry out exactly the calls, result and state change of `ExecPlan`, and
  the corrected `ExecuteReleasing` those of `ExecPlanReleasing`.
- `sorting.dfy`: the bulk sort loop, proved against the reference function
  `Bulks`, with lemmas stating what `Bulks` holds.

Where the comments and the code disagree, the model follows the code:

- The doc comment of `execute` (RedisTemplate.java line 139) says pipeline
  results are discarded. Line 169 returns them, and so does the model
  (`Returned.Pipelined`).
- The comment on `setExposeConnection` (line 262) says exposure defaults to
  false. Line 69 initializes it to true, and so does the model's constructor.

## Model

| member | source | states |
|---|---|---|
| Template.RedisTemplate.constructor | src/main/java/org/springframework/data/redis/core/RedisTemplate.java:69-82 | The connection is exposed by default. The default serializer is the object serializer. No role serializer is set. Strings use the string serializer. No facade is cached. |
| Template.RedisTemplate.AfterPropertiesSet | src/main/java/org/springframework/data/redis/core/RedisTemplate.java:92-118 | Each role serializer is the one set before the call, or else the default. The string serializer is unchanged. The call fails, with the "default serializer null" message, exactly when some role was unset and the default is null. It passes exactly when all four roles end up set. |
| Template.RedisTemplate.Configured | src/main/java/org/springframework/data/redis/core/RedisTemplate.java:115-117 | All four role serializers are set. This is the condition under which `afterPropertiesSet` passes. |
| Template.RedisTemplate.RawKey | src/main/java/org/springframework/data/redis/core/RedisTemplate.java:382-385 | A null key is rejected with "non null key required" before any serializer is used. A non-null key with no key serializer throws a null dereference. Otherwise the result is the key serializer's outcome: its bytes, or its failure unchanged. |
| Template.RedisTemplate.RawKeys | src/main/java/org/springframework/data/redis/core/RedisTemplate.java:396-405 | It succeeds exactly when every key encodes. The array then has one entry per key, and entry i is the encoding of key i, in iteration order. On failure, the error is that of the first key that fails, and every earlier key encodes. |
| Execution.ExecPlan | src/main/java/org/springframework/data/redis/core/RedisTemplate.java:148-179 | A failed acquisition throws, with nothing else called. Without an owned pipeline the callback's ending is returned unchanged, and an inherited batch gains the callback's replies. When the call owns the pipeline and openPipeline throws, that failure is the result and the callback never runs. With an owned, opened pipeline and a close that succeeds: a null result becomes the harvested replies, a non-null result becomes the invalid-usage error, and a callback failure propagates. A failing close replaces any of these. A pipeline the call owns never stays open. |
| Execution.OwnsPipeline | src/main/java/org/springframework/data/redis/core/RedisTemplate.java:159-174 | The call owns the pipeline exactly when one is requested and the connection is not pipelined already: the condition of the open, the harvest and the finally block's close. |
| Execution.CallbackRunsOnce | src/main/java/org/springframework/data/redis/core/RedisTemplate.java:157-163 | Once the connection is acquired, the callback runs exactly once, on the requested view (raw or close-suppressing), unless the openPipeline before the try block throws; then it never runs. openPipeline is called exactly when a pipeline is requested and none is active, and always before the callback. |
| Execution.OnlyOwnedPipelineClosed | src/main/java/org/springframework/data/redis/core/RedisTemplate.java:165-176 | closePipeline is called if and only if the call opened the pipeline, so an inherited pipeline, or one whose open threw, is never closed. When the close succeeds, the connection sees exactly open, callback, close, for a null result, a non-null result and a callback failure alike. |
| Execution.ConnectionReleased | src/main/java/org/springframework/data/redis/core/RedisTemplate.java:151-178 | As written: the connection is acquired first and exactly once. It is released exactly once on every exit path, except two. If the call owns the pipeline and its openPipeline throws, or if the close in the finally block throws, it is never released. The binder log is exactly getConnection, followed by releaseConnection on the other paths. |
| Execution.UnownedPlan | src/main/java/org/springframework/data/redis/core/RedisTemplate.java:163-177 | Without an owned pipeline: one callback invocation, no open, no close, one release, the callback's ending as the result, and the connection's pipeline state carried over. |
| Execution.OwnedPlan | src/main/java/org/springframework/data/redis/core/RedisTemplate.java:159-177 | With an owned pipeline whose open succeeded: open, then the callback, then at least one close. The pipeline ends torn down. Release happens iff the close succeeds. |
| Execution.OwnedCalls | src/main/java/org/springframework/data/redis/core/RedisTemplate.java:159-176 | The connection log of an owned pipeline starts with open, then the callback. It holds one open and no invocation on the other view. It holds two closes when the harvest close throws and the finally block closes again, and one otherwise. |
| Execution.OwnedResult | src/main/java/org/springframework/data/redis/core/RedisTemplate.java:164-176 | Under an owned pipeline: a failing close is the failure that escapes. Otherwise a null result becomes the harvest, a non-null result becomes the invalid-usage error with its source message, and a callback failure propagates. |
| Execution.Acquired | src/main/java/org/springframework/data/redis/core/RedisTemplate.java:151-177 | The binder log of an acquired call starts with the one getConnection. It holds one releaseConnection if the finally block reaches the release, and none otherwise. |
| Execution.DirectResult | src/main/java/org/springframework/data/redis/core/RedisTemplate.java:163-171 | Outside an owned pipeline the result is the callback's own, since postProcessResult is the identity: null stays null, a value stays that value, and a failure is that failure. |
| Execution.ExecPlanReleasing | src/main/java/org/springframework/data/redis/core/RedisTemplate.java:151-178 | The corrected plan. The open, the try block and its finally close run inside an outer try whose finally releases. An acquired connection is released exactly once on every path, including a failing open and a failing close. The result, the connection calls and the pipeline state are derived equal to those of `ExecPlan`. |
| Execution.ReleaseSkippedWhenPipelineCallFails | src/main/java/org/springframework/data/redis/core/RedisTemplate.java:159-178 | Case 1: an owned pipeline, a non-null callback result and a failing closePipeline. As written, the close failure escapes, the usage error is lost, and releaseConnection is never called. Case 2: the same with a null result; the pipeline is closed twice and the connection is not released. Case 3: a failing openPipeline also leaves the connection unreleased. The corrected plan releases in cases 1 and 3. |
| Template.RedisTemplate.Execute | src/main/java/org/springframework/data/redis/core/RedisTemplate.java:148-179 | The imperative execute method produces exactly `ExecPlan`: the returned result, the calls appended to the binder's and the connection's logs, and the connection's final pipeline state and queue. The session binding is unchanged. |
| Template.RedisTemplate.ExecuteOn | src/main/java/org/springframework/data/redis/core/RedisTemplate.java:157-178 | From the acquired connection on, the method makes the calls and reaches the result and state of `ExecPlan` with a successful acquisition. The release is skipped exactly when a failure escaped from the open or the finally close. |
| Template.RedisTemplate.ExecuteReleasing | src/main/java/org/springframework/data/redis/core/RedisTemplate.java:151-178 | The corrected execute. It runs the same open, try block and finally close as `Execute`, then always releases the acquired connection. It is proved to produce exactly `ExecPlanReleasing`: the result, both call logs and the final pipeline state. |
| Template.RedisTemplate.RunAcquired | src/main/java/org/springframework/data/redis/core/RedisTemplate.java:157-176 | The code between acquisition and release: the open, the try block and the finally close. It produces exactly `ExecPlan`'s result, connection calls and pipeline state. `escaped` holds exactly when the call owns the pipeline and its open or its close fails, which are the failures that bypass the release as written. |
| Template.RedisTemplate.TryBlock | src/main/java/org/springframework/data/redis/core/RedisTemplate.java:163-172 | The try block. Without ownership, the callback's ending is passed through. Under ownership, a non-null result is the usage error with the pipeline left open. Otherwise the pipeline is closed and the harvested replies, which are the callback's issued replies in order, replace the result; pipelinedClosed is set exactly when that close succeeds. |
| Template.RedisTemplate.FinallyClose | src/main/java/org/springframework/data/redis/core/RedisTemplate.java:174-176 | The finally block's close of a pipeline the call owns and has not closed yet. A failing close escapes the block and replaces the outcome; otherwise the try block's outcome stands. |
| Template.RedisTemplate.ExecuteExposing | src/main/java/org/springframework/data/redis/core/RedisTemplate.java:133-135 | `execute(action, exposeConnection)` is the execution plan without a pipeline. |
| Template.RedisTemplate.ExecuteDefault | src/main/java/org/springframework/data/redis/core/RedisTemplate.java:121-123 | `execute(action)` is the execution plan with the template's own exposure setting and no pipeline. |
| Template.RedisTemplate.ExecuteSession | src/main/java/org/springframework/data/redis/core/RedisTemplate.java:183-192 | A failed bind throws before the session runs, leaving the binding unchanged. Otherwise exactly one bind is followed by exactly one unbind, and the session's value or failure is returned. The binding ends released. |
| Template.SessionResult | src/main/java/org/springframework/data/redis/core/RedisTemplate.java:187-188 | The session's value is returned and its failure propagates. |
| Template.OwnedLog | src/main/java/org/springframework/data/redis/core/RedisTemplate.java:159-176 | The connection log assembled from the open, the try block and the finally block is the owned log of `ExecPlan`. |
| Template.ReleaseLog | src/main/java/org/springframework/data/redis/core/RedisTemplate.java:151-177 | The binder log assembled from the acquisition and the finally block is the acquired log of `ExecPlan`. |
| Template.RedisTemplate.OpsForValue | src/main/java/org/springframework/data/redis/core/RedisTemplate.java:747-752 | A cached value facade is returned as is. Otherwise a new facade bound to this template is created and cached. Either way the field holds the returned facade. |
| Template.RedisTemplate.OpsForList | src/main/java/org/springframework/data/redis/core/RedisTemplate.java:755-760 | The same lazy caching for the list facade. |
| Template.RedisTemplate.OpsForSet | src/main/java/org/springframework/data/redis/core/RedisTemplate.java:773-778 | The same lazy caching for the set facade. |
| Template.RedisTemplate.OpsForZSet | src/main/java/org/springframework/data/redis/core/RedisTemplate.java:786-791 | The same lazy caching for the sorted-set facade. |
| Template.RedisTemplate.OpsForHash | src/main/java/org/springframework/data/redis/core/RedisTemplate.java:799-801 | The hash facade is not cached: every call returns a new one bound to this template. |
| Template.Operations.constructor | src/main/java/org/springframework/data/redis/core/RedisTemplate.java:747-801 | A facade of the given kind bound to the template that creates it, as each `DefaultXOperations(this)` is. |
| Sorting.SortBulk | src/main/java/org/springframework/data/redis/core/RedisTemplate.java:703-725 | A null or empty reply gives the empty list. A non-empty reply with no GET pattern throws the division by zero of the capacity computation. Otherwise the loop returns exactly the records of the reference function `Bulks`. |
| Sorting.Bulks | src/main/java/org/springframework/data/redis/core/RedisTemplate.java:713-724 | The reference reading of the loop: each full group of `b` elements from the front is mapped to one record, and a tail shorter than `b` is dropped. There are no records exactly when the reply is shorter than one group. |
| Sorting.BulksCount | src/main/java/org/springframework/data/redis/core/RedisTemplate.java:711-724 | The records number the reply's length divided by the group size. Fewer than one group's worth of trailing elements is dropped. |
| Sorting.BulksAt | src/main/java/org/springframework/data/redis/core/RedisTemplate.java:714-720 | Record j is the mapper applied to elements j·b up to (j+1)·b of the reply, in order, and that range lies within the reply. |
| Sorting.BulksLength | src/main/java/org/springframework/data/redis/core/RedisTemplate.java:713-724 | The records cover all but fewer than one group's worth of the reply's elements. |
| Sorting.BulksAppend | src/main/java/org/springframework/data/redis/core/RedisTemplate.java:716-720 | A full group read after whole groups adds exactly its mapped record at the end. |
| Sorting.BulksDropTail | src/main/java/org/springframework/data/redis/core/RedisTemplate.java:713-724 | A partial group after whole groups adds no record. |
| Sorting.GroupComplete | src/main/java/org/springframework/data/redis/core/RedisTemplate.java:716-720 | One iteration of the loop that completes a group appends its record and keeps the result equal to the records of the prefix read so far. |
| Sorting.TailDropped | src/main/java/org/springframework/data/redis/core/RedisTemplate.java:713-724 | When the loop ends, the partial group still held in `bulk` adds nothing, so the result is the records of the whole reply. |
| Sorting.GroupCount | src/main/java/org/springframework/data/redis/core/RedisTemplate.java:711 | A length made of k whole groups and a shorter remainder holds exactly k groups under integer division. |
| Connections.Connection.OpenPipeline | src/main/java/org/springframework/data/redis/core/RedisTemplate.java:159-161 | openPipeline is logged. It either starts an empty queue, or raises the driver's failure and leaves the connection unpipelined. |
| Connections.Connection.constructor | src/main/java/org/springframework/data/redis/core/RedisTemplate.java:152-157 | A connection as handed out: its pipelined flag and queue, with nothing logged yet, and the failures its driver raises from openPipeline and closePipeline. |
| Connections.Connection.RunCallback | src/main/java/org/springframework/data/redis/core/RedisTemplate.java:163 | Handing the connection to the callback logs one invocation on the chosen view. Under a pipeline, the callback's replies join the queue in issue order. |
| Connections.Connection.ClosePipeline | src/main/java/org/springframework/data/redis/core/RedisTemplate.java:169 | Closing returns the queued replies, or the driver's failure, and tears the pipeline down either way. |
| Connections.ConnectionFactory.AcquireFault | src/main/java/org/springframework/data/redis/core/RedisTemplate.java:151 | Acquisition fails only when no connection is bound and the factory cannot supply one. |
| Connections.ConnectionFactory.constructor | src/main/java/org/springframework/data/redis/core/RedisTemplate.java:150-152 | A factory with nothing bound and nothing logged, the connection it hands out, and the failure it raises when it cannot supply one. |
| Connections.ConnectionFactory.GetConnection | src/main/java/org/springframework/data/redis/core/RedisTemplate.java:151 | getConnection is logged and returns the connection, or the factory's failure. |
| Connections.ConnectionFactory.ReleaseConnection | src/main/java/org/springframework/data/redis/core/RedisTemplate.java:177 | releaseConnection is logged. |
| Connections.ConnectionFactory.BindConnection | src/main/java/org/springframework/data/redis/core/RedisTemplate.java:186 | bindConnection is logged. It fails exactly when acquisition would fail, and otherwise leaves a connection bound. |
| Connections.ConnectionFactory.UnbindConnection | src/main/java/org/springframework/data/redis/core/RedisTemplate.java:190 | unbindConnection is logged and leaves no connection bound. |

## Left out

- The one-line wrappers (`delete`, `hasKey`, `expire`, `multi`, `exec`, `watch`, the store form of `sort`, and so on) forward to `RedisConnection` commands that are not part of this model. So do the `boundXOps` facades.
- `rawString`, `rawValue` and `deserializeKey` each make one call into a serializer whose behaviour is not modelled. The getters and setters only read or assign a field.
- Serializers are abstract encoding functions. `JdkSerializationRedisSerializer`, `StringRedisSerializer` and `SerializationUtils` are not part of this model, so no encode/decode round trip is claimed.
- `super.afterPropertiesSet()` of `RedisAccessor` is not part of this model. It checks the connection factory, which the model takes as given.
- The close-suppressing proxy (`createRedisConnectionProxy`) is reduced to the flag `Invoke(exposed)` recording which view the callback received.
- `preProcessConnection` and `postProcessResult` are modelled as the identity they are. Whether the connection was already bound (`existingConnection`) therefore has no effect and is not modelled.
- `RedisConnectionUtils` and `TransactionSynchronizationManager` are reduced to two things: a bound flag, and a factory that either supplies the connection or fails. Pooling, thread-local binding and the distinction between a bound connection and a fresh one are not modelled; one connection object stands for the one handed out.
- A callback is given by its issued replies and its ending. The commands it runs, and any pipeline it opens or closes itself, are not modelled. A session is given by its ending only, since it runs through the template's public operations.
- A failing `openPipeline` or `closePipeline` is a fixed property of the connection (`openFault`, `closeFault`): each open on a connection with an open failure fails, and so does each close on a connection with a close failure. A call that fails once and then succeeds is not modelled.
- Execution.ConnectionReleased: a throw from `isPipelined()` (line 157) is not modelled. It sits before the try block too, so it would also skip the release; the model lets only the open and the finally close fail there.
- Sorting.SortBulk: a failure thrown by the bulk mapper (line 718) is not modelled; the mapper is a total function, so every group maps to a record.
- The reply fetch and decode of the bulk sort (`sort(query, resultSerializer)`, `QueryUtils.convertQuery`) are not modelled. `SortBulk` takes the decoded reply (or null) as a parameter. A null query or mapper is not modelled.
- `rawKeys` takes the keys as a sequence, so a null collection is not modelled.
- Concurrency: the thread-safety remark and the unsynchronized lazy facade caches are out of scope.
- The commented-out `executePipelined` is not code and is not modelled.

## Findings

| source | as written | input that shows it | evidently intended | confidence | as-written member | corrected member |
|---|---|---|---|---|---|---|
| src/main/java/org/springframework/data/redis/core/RedisTemplate.java:159-178 | Two calls can throw before the release at line 177 is reached. `openPipeline` runs before the try block. In the finally block, `closePipeline` runs before `releaseConnection` without a guard of its own. If either throws, the connection is never released. | A call that owns the pipeline. Either its `openPipeline` throws, or its `closePipeline` throws while the callback returns a non-null value (or returns null, so that the harvest close throws too). | The connection is released on every exit path of `execute` once it is acquired. The open, the try block and its close would sit inside a try whose finally releases. | not executed | Execution.ExecPlan and Execution.ReleaseSkippedWhenPipelineCallFails | Execution.ExecPlanReleasing and Template.RedisTemplate.ExecuteReleasing |
