/** The collaborators the template drives but does not implement, reduced to
    the state the template's logic depends on: a connection with a pipelined
    flag and a log of the calls made on it, and a connection factory (together
    with the thread-bound session binding) with a log of acquire, release,
    bind and unbind calls. */
module Connections {
  import opened Common

  /** A reply of the store to one command, as the driver hands it back. */
  type Reply = Bytes

  /** The calls the template makes on a connection, in order. */
  datatype ConnCall =
    | OpenPipeline
    | ClosePipeline
    /** The callback was handed the connection: the raw one when `exposed`,
        otherwise the view that suppresses close and quit. */
    | Invoke(exposed: bool)

  /** The calls the template makes on the connection binder and factory. */
  datatype FactoryCall = GetConnection | ReleaseConnection | BindConnection | UnbindConnection

  class Connection {
    /** Whether the connection is currently pipelined. */
    var pipelined: bool
    /** The replies of the commands issued since the pipeline was opened. */
    var queued: seq<Reply>
    /** Every lifecycle call made on this connection. */
    var calls: seq<ConnCall>
    /** The failure the driver raises from openPipeline, if it raises one. */
    const openFault: Option<Error>
    /** The failure the driver raises from closePipeline, if it raises one. */
    const closeFault: Option<Error>

    ghost predicate Valid()
      reads this
    {
      !pipelined ==> queued == []
    }

    constructor (pipelined: bool, queued: seq<Reply>, openFault: Option<Error>, closeFault: Option<Error>)
      requires !pipelined ==> queued == []
      ensures Valid()
      ensures this.pipelined == pipelined && this.queued == queued && calls == []
      ensures this.openFault == openFault && this.closeFault == closeFault
    {
      this.pipelined := pipelined;
      this.queued := queued;
      this.calls := [];
      this.openFault := openFault;
      this.closeFault := closeFault;
    }

    /** Starts a pipeline: replies are queued from now on instead of returned.
        When the driver raises its failure the connection stays unpipelined. */
    method OpenPipeline() returns (o: Outcome)
      requires Valid() && !pipelined
      modifies this
      ensures Valid() && queued == []
      ensures o == if openFault.Some? then Fail(openFault.value) else Pass
      ensures pipelined == o.Pass?
      ensures calls == old(calls) + [ConnCall.OpenPipeline]
    {
      calls := calls + [ConnCall.OpenPipeline];
      if openFault.Some? {
        return Fail(openFault.value);
      }
      pipelined := true;
      queued := [];
      return Pass;
    }

    /** Hands the connection to a callback that issues commands with the given
        replies; under a pipeline the replies join the queue, in issue order. */
    method RunCallback(exposed: bool, issued: seq<Reply>)
      requires Valid()
      modifies this
      ensures Valid() && pipelined == old(pipelined)
      ensures queued == if pipelined then old(queued) + issued else old(queued)
      ensures calls == old(calls) + [Invoke(exposed)]
    {
      if pipelined {
        queued := queued + issued;
      }
      calls := calls + [Invoke(exposed)];
    }

    /** Ends the pipeline and harvests the queued replies, or raises the
        driver's failure; either way the pipeline is torn down. */
    method ClosePipeline() returns (r: Result<seq<Reply>>)
      modifies this
      ensures Valid() && !pipelined && queued == []
      ensures calls == old(calls) + [ConnCall.ClosePipeline]
      ensures r == if closeFault.Some? then Failure(closeFault.value) else Success(old(queued))
    {
      r := if closeFault.Some? then Failure(closeFault.value) else Success(queued);
      pipelined := false;
      queued := [];
      calls := calls + [ConnCall.ClosePipeline];
    }
  }

  /** The connection factory together with the thread-bound session binding
      that RedisConnectionUtils manages for it. */
  class ConnectionFactory {
    /** Whether a connection is bound to the current session. */
    var bound: bool
    /** Every call the template makes on the binder, in order. */
    var calls: seq<FactoryCall>
    /** The failure the factory raises when asked for a new connection, if any. */
    const unavailable: Option<Error>
    /** The connection handed out: the bound one inside a session, the one
        freshly obtained from the factory otherwise. */
    const connection: Connection

    ghost predicate Valid()
      reads this, connection
    {
      connection.Valid()
    }

    constructor (connection: Connection, unavailable: Option<Error>)
      ensures !bound && calls == [] && this.connection == connection && this.unavailable == unavailable
    {
      this.bound := false;
      this.calls := [];
      this.connection := connection;
      this.unavailable := unavailable;
    }

    /** Acquiring a connection fails only when none is bound and the factory
        cannot supply one. */
    function AcquireFault(): (f: Option<Error>)
      reads this
      ensures bound ==> f == None
      ensures !bound ==> f == unavailable
    {
      if bound then None else unavailable
    }

    method GetConnection() returns (r: Result<Connection>)
      modifies this`calls
      ensures calls == old(calls) + [FactoryCall.GetConnection]
      ensures r == if AcquireFault().Some? then Failure(AcquireFault().value) else Success(connection)
    {
      calls := calls + [FactoryCall.GetConnection];
      var fault := AcquireFault();
      r := if fault.Some? then Failure(fault.value) else Success(connection);
    }

    method ReleaseConnection()
      modifies this`calls
      ensures calls == old(calls) + [FactoryCall.ReleaseConnection]
    {
      calls := calls + [FactoryCall.ReleaseConnection];
    }

    method BindConnection() returns (o: Outcome)
      modifies this`calls, this`bound
      ensures calls == old(calls) + [FactoryCall.BindConnection]
      ensures o == if old(AcquireFault()).Some? then Fail(old(AcquireFault()).value) else Pass
      ensures bound == (old(bound) || o.Pass?)
    {
      calls := calls + [FactoryCall.BindConnection];
      var fault := AcquireFault();
      if fault.Some? {
        o := Fail(fault.value);
      } else {
        o := Pass;
        bound := true;
      }
    }

    method UnbindConnection()
      modifies this`calls, this`bound
      ensures calls == old(calls) + [FactoryCall.UnbindConnection]
      ensures !bound
    {
      calls := calls + [FactoryCall.UnbindConnection];
      bound := false;
    }
  }
}
