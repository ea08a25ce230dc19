/** What one call of `execute(action, exposeConnection, pipeline)` does, as a
    value: the calls it makes on the connection and on the binder, what it
    returns or throws, and the connection's pipeline state afterwards. The
    imperative `Template.RedisTemplate.Execute` is proved to produce exactly
    this plan, and `Template.RedisTemplate.ExecuteReleasing` the corrected
    plan `ExecPlanReleasing`. */
module Execution {
  import opened Common
  import opened Connections

  /** How a callback ends: it returns null, returns a value, or throws. */
  datatype Ending<R> = ReturnsNull | Returns(value: R) | Fails(error: Error)

  /** A callback, described by the replies of the commands it issues on the
      connection (in issue order) and by how it ends. */
  datatype Callback<R> = Callback(issued: seq<Reply>, ending: Ending<R>)

  /** What `execute` returns: null, the callback's own value, or the list
      harvested from a pipeline this call opened. */
  datatype Returned<R> = NoValue | Direct(value: R) | Pipelined(replies: seq<Reply>)

  datatype Execution<R> = Execution(
    result: Result<Returned<R>>,
    connCalls: seq<ConnCall>,
    factoryCalls: seq<FactoryCall>,
    pipelined: bool,
    queued: seq<Reply>)

  const PipelineResultMessage := "Callback cannot returned a non-null value as it gets overwritten by the pipeline"

  /** The call opens, and so owns, the pipeline exactly when one is requested
      and the connection is not pipelined already. */
  predicate OwnsPipeline(pipeline: bool, alreadyPipelined: bool) {
    pipeline && !alreadyPipelined
  }

  /** The callback's ending passed through unchanged (postProcessResult is
      the identity). */
  function DirectResult<R>(ending: Ending<R>): (r: Result<Returned<R>>)
    ensures ending.ReturnsNull? <==> r == Success(NoValue)
    ensures ending.Fails? <==> r.Failure?
    ensures ending.Fails? ==> r.error == ending.error
    ensures ending.Returns? <==> r.Success? && r.value.Direct?
    ensures ending.Returns? ==> r.value.value == ending.value
  {
    match ending
    case ReturnsNull => Success(NoValue)
    case Returns(v) => Success(Direct(v))
    case Fails(e) => Failure(e)
  }

  /** The plan of `execute` as the source writes it. `acquireFault` is the
      failure of getConnection, `alreadyPipelined` and `queued` the state of
      the acquired connection, `openFault` and `closeFault` the failures its
      openPipeline and closePipeline raise. */
  function ExecPlan<R>(acquireFault: Option<Error>, alreadyPipelined: bool, queued: seq<Reply>,
                       openFault: Option<Error>, closeFault: Option<Error>,
                       exposeConnection: bool, pipeline: bool, action: Callback<R>): (e: Execution<R>)
    // a failed acquisition throws before anything else happens
    ensures acquireFault.Some? ==>
      && e.result == Failure(acquireFault.value)
      && e.factoryCalls == [GetConnection] && e.connCalls == []
      && e.pipelined == alreadyPipelined && e.queued == queued
    // an inherited pipeline, or none, passes the callback's ending through;
    // an inherited batch gains the callback's replies
    ensures acquireFault.None? && !OwnsPipeline(pipeline, alreadyPipelined) ==>
      && e.result == DirectResult(action.ending)
      && e.pipelined == alreadyPipelined
      && e.queued == (if alreadyPipelined then queued + action.issued else queued)
    // a failing openPipeline throws before the try block: the callback
    // never runs
    ensures acquireFault.None? && OwnsPipeline(pipeline, alreadyPipelined) && openFault.Some? ==>
      e.result == Failure(openFault.value) && e.connCalls == [ConnCall.OpenPipeline]
    // an owned pipeline whose close succeeds gives the harvest, the usage
    // error, or the callback's failure
    ensures acquireFault.None? && OwnsPipeline(pipeline, alreadyPipelined) && openFault.None? &&
            closeFault.None? && action.ending.ReturnsNull? ==>
      e.result == Success(Pipelined(action.issued))
    ensures acquireFault.None? && OwnsPipeline(pipeline, alreadyPipelined) && openFault.None? &&
            closeFault.None? && action.ending.Returns? ==>
      e.result == Failure(InvalidApiUsage(PipelineResultMessage))
    ensures acquireFault.None? && OwnsPipeline(pipeline, alreadyPipelined) && openFault.None? &&
            closeFault.None? && action.ending.Fails? ==>
      e.result == Failure(action.ending.error)
    // a failing close replaces whatever the call would have returned or thrown
    ensures acquireFault.None? && OwnsPipeline(pipeline, alreadyPipelined) && openFault.None? &&
            closeFault.Some? ==>
      e.result == Failure(closeFault.value)
    // a pipeline the call asked to own never stays open
    ensures acquireFault.None? && OwnsPipeline(pipeline, alreadyPipelined) ==>
      !e.pipelined && e.queued == []
  {
    if acquireFault.Some? then
      Execution(Failure(acquireFault.value), [], [GetConnection], alreadyPipelined, queued)
    else if !OwnsPipeline(pipeline, alreadyPipelined) then
      UnownedPlan(alreadyPipelined, queued, exposeConnection, action)
    else if openFault.Some? then
      // the open precedes the try block, so its failure skips the release
      Execution(Failure(openFault.value), [ConnCall.OpenPipeline], Acquired(false), false, [])
    else
      OwnedPlan(closeFault, exposeConnection, action)
  }

  /** Once the connection is acquired, the callback runs exactly once, on
      the requested view, unless the openPipeline before it throws;
      openPipeline is called exactly when a pipeline is requested and none
      is active, and then before the callback. */
  lemma CallbackRunsOnce<R>(acquireFault: Option<Error>, alreadyPipelined: bool, queued: seq<Reply>,
                            openFault: Option<Error>, closeFault: Option<Error>,
                            exposeConnection: bool, pipeline: bool, action: Callback<R>)
    ensures var e := ExecPlan(acquireFault, alreadyPipelined, queued, openFault, closeFault, exposeConnection, pipeline, action);
      && multiset(e.connCalls)[Invoke(exposeConnection)] ==
           (if acquireFault.None? && (!OwnsPipeline(pipeline, alreadyPipelined) || openFault.None?) then 1 else 0)
      && multiset(e.connCalls)[Invoke(!exposeConnection)] == 0
      && multiset(e.connCalls)[ConnCall.OpenPipeline] ==
           (if acquireFault.None? && OwnsPipeline(pipeline, alreadyPipelined) then 1 else 0)
      && (acquireFault.None? && OwnsPipeline(pipeline, alreadyPipelined) && openFault.None? ==>
            e.connCalls[..2] == [ConnCall.OpenPipeline, Invoke(exposeConnection)])
  {
  }

  /** Only a pipeline the call opened is closed: an inherited one never, an
      opened one at least once, and, when its close succeeds, exactly once
      and after the callback, whatever the callback does. */
  lemma OnlyOwnedPipelineClosed<R>(acquireFault: Option<Error>, alreadyPipelined: bool, queued: seq<Reply>,
                                   openFault: Option<Error>, closeFault: Option<Error>,
                                   exposeConnection: bool, pipeline: bool, action: Callback<R>)
    ensures var e := ExecPlan(acquireFault, alreadyPipelined, queued, openFault, closeFault, exposeConnection, pipeline, action);
      && (ConnCall.ClosePipeline in e.connCalls <==>
            acquireFault.None? && OwnsPipeline(pipeline, alreadyPipelined) && openFault.None?)
      && (acquireFault.None? && OwnsPipeline(pipeline, alreadyPipelined) && openFault.None? && closeFault.None? ==>
            && multiset(e.connCalls)[ConnCall.ClosePipeline] == 1
            && e.connCalls == [ConnCall.OpenPipeline, Invoke(exposeConnection), ConnCall.ClosePipeline])
  {
  }

  /** As written, the connection is acquired once, first, and released at
      most once: exactly once unless the call owns the pipeline and its
      openPipeline, or the close in the finally block, throws. */
  lemma ConnectionReleased<R>(acquireFault: Option<Error>, alreadyPipelined: bool, queued: seq<Reply>,
                              openFault: Option<Error>, closeFault: Option<Error>,
                              exposeConnection: bool, pipeline: bool, action: Callback<R>)
    ensures var e := ExecPlan(acquireFault, alreadyPipelined, queued, openFault, closeFault, exposeConnection, pipeline, action);
      var released := !OwnsPipeline(pipeline, alreadyPipelined) || (openFault.None? && closeFault.None?);
      && |e.factoryCalls| > 0 && e.factoryCalls[0] == GetConnection
      && multiset(e.factoryCalls)[GetConnection] == 1
      && multiset(e.factoryCalls)[ReleaseConnection] == (if acquireFault.None? && released then 1 else 0)
      && (acquireFault.None? ==> e.factoryCalls == Acquired(released))
  {
  }

  /** The binder calls of a call that acquired its connection: one
      getConnection, then one releaseConnection if `released`. */
  function Acquired(released: bool): (calls: seq<FactoryCall>)
    ensures |calls| > 0 && calls[0] == GetConnection
    ensures multiset(calls)[GetConnection] == 1
    ensures multiset(calls)[ReleaseConnection] == if released then 1 else 0
  {
    if released then [GetConnection, ReleaseConnection] else [GetConnection]
  }

  /** A call that does not own a pipeline: the callback's ending is passed
      through, and the connection is released once. */
  function UnownedPlan<R>(alreadyPipelined: bool, queued: seq<Reply>, exposeConnection: bool,
                          action: Callback<R>): (e: Execution<R>)
    ensures multiset(e.connCalls)[Invoke(exposeConnection)] == 1
    ensures multiset(e.connCalls)[Invoke(!exposeConnection)] == 0
    ensures multiset(e.connCalls)[ConnCall.OpenPipeline] == 0
    ensures ConnCall.ClosePipeline !in e.connCalls
    ensures |e.factoryCalls| > 0 && e.factoryCalls[0] == GetConnection
    ensures multiset(e.factoryCalls)[GetConnection] == 1
    ensures multiset(e.factoryCalls)[ReleaseConnection] == 1
    ensures e.result == DirectResult(action.ending)
    ensures e.pipelined == alreadyPipelined
    ensures e.queued == if alreadyPipelined then queued + action.issued else queued
  {
    Execution(DirectResult(action.ending), [Invoke(exposeConnection)], Acquired(true),
              alreadyPipelined, if alreadyPipelined then queued + action.issued else queued)
  }

  /** A call that opened, and so owns, the pipeline: it is always closed, and
      the connection is released unless the close in the finally block throws. */
  function OwnedPlan<R>(closeFault: Option<Error>, exposeConnection: bool, action: Callback<R>): (e: Execution<R>)
    ensures multiset(e.connCalls)[Invoke(exposeConnection)] == 1
    ensures multiset(e.connCalls)[Invoke(!exposeConnection)] == 0
    ensures multiset(e.connCalls)[ConnCall.OpenPipeline] == 1
    ensures e.connCalls[..2] == [ConnCall.OpenPipeline, Invoke(exposeConnection)]
    ensures ConnCall.ClosePipeline in e.connCalls && !e.pipelined && e.queued == []
    ensures closeFault.None? ==> multiset(e.connCalls)[ConnCall.ClosePipeline] == 1
    ensures |e.factoryCalls| > 0 && e.factoryCalls[0] == GetConnection
    ensures multiset(e.factoryCalls)[GetConnection] == 1
    ensures multiset(e.factoryCalls)[ReleaseConnection] == if closeFault.None? then 1 else 0
    ensures e.result == OwnedResult(closeFault, action)
  {
    // the finally block closes a second time when the harvest itself threw,
    // and when its own close throws the release after it is skipped
    Execution(OwnedResult(closeFault, action), OwnedCalls(exposeConnection, closeFault.Some? && action.ending.ReturnsNull?),
              Acquired(closeFault.None?), false, [])
  }

  /** The connection calls of a call that owns the pipeline: open, hand over,
      close, and close again from the finally block when the harvest threw. */
  function OwnedCalls(exposeConnection: bool, closedAgain: bool): (calls: seq<ConnCall>)
    ensures |calls| >= 2 && calls[..2] == [ConnCall.OpenPipeline, Invoke(exposeConnection)]
    ensures multiset(calls)[Invoke(exposeConnection)] == 1
    ensures multiset(calls)[Invoke(!exposeConnection)] == 0
    ensures multiset(calls)[ConnCall.OpenPipeline] == 1
    ensures multiset(calls)[ConnCall.ClosePipeline] == if closedAgain then 2 else 1
    ensures ConnCall.ClosePipeline in calls
  {
    var once := [ConnCall.OpenPipeline, Invoke(exposeConnection), ConnCall.ClosePipeline];
    if closedAgain then once + [ConnCall.ClosePipeline] else once
  }

  /** What a call that owns the pipeline returns or throws. */
  function OwnedResult<R>(closeFault: Option<Error>, action: Callback<R>): (r: Result<Returned<R>>)
    ensures closeFault.Some? ==> r == Failure(closeFault.value)
    ensures closeFault.None? && action.ending.ReturnsNull? ==> r == Success(Pipelined(action.issued))
    ensures closeFault.None? && action.ending.Returns? ==> r == Failure(InvalidApiUsage(PipelineResultMessage))
    ensures closeFault.None? && action.ending.Fails? ==> r == Failure(action.ending.error)
  {
    // a failing close throws from the try block or from the finally block,
    // and either way its failure is the one that escapes
    if closeFault.Some? then Failure(closeFault.value)
    else match action.ending
      case ReturnsNull => Success(Pipelined(action.issued))
      case Returns(_) => Failure(InvalidApiUsage(PipelineResultMessage))
      case Fails(e) => Failure(e)
  }

  /** The corrected plan: everything after the acquisition (the open, the
      try block and its finally close) runs inside an outer try whose
      finally releases the connection. The pipeline calls, the result and
      the pipeline state are those of the plan as written; only the release
      now happens on every exit path. */
  function ExecPlanReleasing<R>(acquireFault: Option<Error>, alreadyPipelined: bool, queued: seq<Reply>,
                                openFault: Option<Error>, closeFault: Option<Error>,
                                exposeConnection: bool, pipeline: bool, action: Callback<R>): (e: Execution<R>)
    ensures multiset(e.factoryCalls)[ReleaseConnection] == if acquireFault.None? then 1 else 0
    ensures acquireFault.None? ==> e.factoryCalls == [GetConnection, ReleaseConnection]
    ensures var w := ExecPlan(acquireFault, alreadyPipelined, queued, openFault, closeFault, exposeConnection, pipeline, action);
      && e.result == w.result && e.connCalls == w.connCalls
      && e.pipelined == w.pipelined && e.queued == w.queued
  {
    if acquireFault.Some? then
      Execution(Failure(acquireFault.value), [], [GetConnection], alreadyPipelined, queued)
    else if !OwnsPipeline(pipeline, alreadyPipelined) then
      UnownedPlan(alreadyPipelined, queued, exposeConnection, action)
    else if openFault.Some? then
      Execution(Failure(openFault.value), [ConnCall.OpenPipeline], Acquired(true), false, [])
    else
      var owned := OwnedPlan(closeFault, exposeConnection, action);
      Execution(owned.result, owned.connCalls, Acquired(true), false, [])
  }

  /** As written, a callback that breaks the pipeline contract on a
      connection whose closePipeline fails leaves the connection unreleased,
      and the usage error is lost; a null-returning callback there closes the
      pipeline twice; a failing openPipeline also leaves the connection
      unreleased. The corrected plan releases in each case. */
  lemma ReleaseSkippedWhenPipelineCallFails()
    ensures var e := ExecPlan<int>(None, false, [], None, Some(Raised(1)), true, true, Callback([], Returns(7)));
      e.result == Failure(Raised(1)) && ReleaseConnection !in e.factoryCalls
    ensures var e := ExecPlan<int>(None, false, [], None, Some(Raised(1)), true, true, Callback([], ReturnsNull));
      multiset(e.connCalls)[ConnCall.ClosePipeline] == 2 && ReleaseConnection !in e.factoryCalls
    ensures var e := ExecPlan<int>(None, false, [], Some(Raised(2)), None, true, true, Callback([], ReturnsNull));
      e.result == Failure(Raised(2)) && ReleaseConnection !in e.factoryCalls
    ensures var e := ExecPlanReleasing<int>(None, false, [], None, Some(Raised(1)), true, true, Callback([], Returns(7)));
      e.result == Failure(Raised(1)) && ReleaseConnection in e.factoryCalls
    ensures var e := ExecPlanReleasing<int>(None, false, [], Some(Raised(2)), None, true, true, Callback([], ReturnsNull));
      e.result == Failure(Raised(2)) && ReleaseConnection in e.factoryCalls
  {
  }
}
