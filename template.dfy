/** The template itself: its serializer configuration, key encoding, the
    execution engine over an abstract connection, session execution, and the
    lazily cached operation facades. */
module Template {
  import opened Common
  import opened Connections
  import opened Execution

  /** A serializer, reduced to its encoding function, which returns the
      encoded bytes or throws; what it computes is not part of this model. */
  datatype Serializer<-T> = Serializer(serialize: T -> Result<Bytes>)

  /** The kinds of typed operation facade a template hands out. */
  datatype OpsKind = ValueOps | ListOps | SetOps | ZSetOps | HashOps

  /** A typed operation facade bound to its template. */
  class Operations<T> {
    const kind: OpsKind
    const template: RedisTemplate<T>

    constructor (kind: OpsKind, template: RedisTemplate<T>)
      ensures this.kind == kind && this.template == template
    {
      this.kind := kind;
      this.template := template;
    }
  }

  const NonNullKeyMessage := "non null key required"
  const DefaultSerializerMessage := "default serializer null and not all serializers initialized"

  /** What a session returns or throws, passed through unchanged. */
  function SessionResult<R>(ending: Ending<R>): (r: Result<Option<R>>)
    ensures ending.ReturnsNull? <==> r == Success(None)
    ensures ending.Fails? <==> r.Failure?
    ensures ending.Fails? ==> r.error == ending.error
    ensures ending.Returns? ==> r == Success(Some(ending.value))
  {
    match ending
    case ReturnsNull => Success(None)
    case Returns(v) => Success(Some(v))
    case Fails(e) => Failure(e)
  }

  /** The connection log of a call that owns the pipeline, assembled from
      its open, its try block and its finally block. */
  lemma OwnedLog(before: seq<ConnCall>, afterOpen: seq<ConnCall>, afterTry: seq<ConnCall>, after: seq<ConnCall>,
                 expose: bool, closedInTry: bool, closedInFinally: bool)
    requires afterOpen == before + [ConnCall.OpenPipeline]
    requires afterTry == afterOpen + if closedInTry then [Invoke(expose), ConnCall.ClosePipeline] else [Invoke(expose)]
    requires after == afterTry + if closedInFinally then [ConnCall.ClosePipeline] else []
    requires closedInTry || closedInFinally
    ensures after == before + OwnedCalls(expose, closedInTry && closedInFinally)
  {
  }

  /** The binder log of a call that acquired its connection, assembled from
      the acquisition and the finally block. */
  lemma ReleaseLog(before: seq<FactoryCall>, acquired: seq<FactoryCall>, after: seq<FactoryCall>, released: bool)
    requires acquired == before + [GetConnection]
    requires after == acquired + if released then [ReleaseConnection] else []
    ensures after == before + Acquired(released)
  {
  }

  /** A template over objects of type T (keys, values, hash fields and hash
      values alike, as the source's serializer fields are raw). */
  class RedisTemplate<T> {
    const factory: ConnectionFactory
    var exposeConnection: bool
    var defaultSerializer: Option<Serializer<T>>
    var keySerializer: Option<Serializer<T>>
    var valueSerializer: Option<Serializer<T>>
    var hashKeySerializer: Option<Serializer<T>>
    var hashValueSerializer: Option<Serializer<T>>
    var stringSerializer: Option<Serializer<string>>

    var valueOps: Operations?<T>
    var listOps: Operations?<T>
    var setOps: Operations?<T>
    var zSetOps: Operations?<T>

    /** All four role serializers are set. */
    predicate Configured()
      reads this
    {
      keySerializer.Some? && valueSerializer.Some? && hashKeySerializer.Some? && hashValueSerializer.Some?
    }

    /** A fresh template: the connection is exposed, the object serializer is
        the default, no role serializer is set yet, strings use the text
        serializer, and no facade is cached. */
    constructor (factory: ConnectionFactory, objectSerializer: Serializer<T>, textSerializer: Serializer<string>)
      ensures this.factory == factory && exposeConnection
      ensures defaultSerializer == Some(objectSerializer) && stringSerializer == Some(textSerializer)
      ensures keySerializer == None && valueSerializer == None
      ensures hashKeySerializer == None && hashValueSerializer == None
      ensures valueOps == null && listOps == null && setOps == null && zSetOps == null
    {
      this.factory := factory;
      exposeConnection := true;
      defaultSerializer := Some(objectSerializer);
      keySerializer, valueSerializer := None, None;
      hashKeySerializer, hashValueSerializer := None, None;
      stringSerializer := Some(textSerializer);
      valueOps, listOps, setOps, zSetOps := null, null, null, null;
    }

    /** Every role serializer left unset falls back to the default one; the
        string serializer is not touched. The call fails when a role fell
        back and there is no default, with the unset roles left unset. */
    method AfterPropertiesSet() returns (o: Outcome)
      modifies this`keySerializer, this`valueSerializer, this`hashKeySerializer, this`hashValueSerializer
      ensures keySerializer == if old(keySerializer).Some? then old(keySerializer) else defaultSerializer
      ensures valueSerializer == if old(valueSerializer).Some? then old(valueSerializer) else defaultSerializer
      ensures hashKeySerializer == if old(hashKeySerializer).Some? then old(hashKeySerializer) else defaultSerializer
      ensures hashValueSerializer == if old(hashValueSerializer).Some? then old(hashValueSerializer) else defaultSerializer
      ensures stringSerializer == old(stringSerializer)
      ensures o.Fail? <==> !old(Configured()) && defaultSerializer.None?
      ensures o.Fail? ==> o.error == IllegalArgument(DefaultSerializerMessage)
      ensures o.Pass? <==> Configured()
    {
      var defaultUsed := false;
      if keySerializer.None? {
        keySerializer := defaultSerializer;
        defaultUsed := true;
      }
      if valueSerializer.None? {
        valueSerializer := defaultSerializer;
        defaultUsed := true;
      }
      if hashKeySerializer.None? {
        hashKeySerializer := defaultSerializer;
        defaultUsed := true;
      }
      if hashValueSerializer.None? {
        hashValueSerializer := defaultSerializer;
        defaultUsed := true;
      }
      if defaultUsed && defaultSerializer.None? {
        return Fail(IllegalArgument(DefaultSerializerMessage));
      }
      return Pass;
    }

    /** A null key is rejected before the key serializer is used; otherwise
        the serializer's bytes, or its failure, are the result. */
    function RawKey(key: Option<T>): (r: Result<Bytes>)
      reads this
      ensures key.None? ==> r == Failure(IllegalArgument(NonNullKeyMessage))
      ensures key.Some? && keySerializer.None? ==> r == Failure(NullDereference)
      ensures key.Some? && keySerializer.Some? ==> r == keySerializer.value.serialize(key.value)
    {
      if key.None? then Failure(IllegalArgument(NonNullKeyMessage))
      else if keySerializer.None? then Failure(NullDereference)
      else keySerializer.value.serialize(key.value)
    }

    /** Encodes the keys in iteration order into an array of the same
        length, or throws the failure of the first key that cannot be encoded. */
    method RawKeys(keys: seq<Option<T>>) returns (r: Result<array<Bytes>>)
      ensures r.Success? <==> forall i :: 0 <= i < |keys| ==> RawKey(keys[i]).Success?
      ensures r.Success? ==> r.value.Length == |keys|
      ensures r.Success? ==> forall i :: 0 <= i < |keys| ==> RawKey(keys[i]) == Success(r.value[i])
      ensures r.Failure? ==> exists j :: 0 <= j < |keys| && RawKey(keys[j]) == Failure(r.error) &&
                                         forall i :: 0 <= i < j ==> RawKey(keys[i]).Success?
    {
      var raw := new Bytes[|keys|];
      var i := 0;
      while i < |keys|
        invariant 0 <= i <= |keys|
        invariant forall k :: 0 <= k < i ==> RawKey(keys[k]) == Success(raw[k])
      {
        var key := RawKey(keys[i]);
        if key.Failure? {
          return Failure(key.error);
        }
        raw[i] := key.value;
        i := i + 1;
      }
      return Success(raw);
    }

    /** Runs the callback on the acquired connection, opening (and then
        closing) a pipeline when one is requested and none is active, and
        releasing the connection in the finally block. The calls made, the
        result and the connection's new state are those of `ExecPlan`. */
    method Execute<R>(action: Callback<R>, expose: bool, pipeline: bool) returns (r: Result<Returned<R>>)
      requires factory.Valid()
      modifies factory, factory.connection
      ensures factory.Valid() && factory.bound == old(factory.bound)
      ensures var e := ExecPlan(old(factory.AcquireFault()), old(factory.connection.pipelined),
                                old(factory.connection.queued), factory.connection.openFault,
                                factory.connection.closeFault, expose, pipeline, action);
        && r == e.result
        && factory.calls == old(factory.calls) + e.factoryCalls
        && factory.connection.calls == old(factory.connection.calls) + e.connCalls
        && factory.connection.pipelined == e.pipelined
        && factory.connection.queued == e.queued
    {
      var acquired := factory.GetConnection();
      if acquired.Failure? {
        return Failure(acquired.error);
      }
      r := ExecuteOn(acquired.value, action, expose, pipeline, old(factory.calls));
    }

    /** `Execute` from the moment the connection is acquired; `acquiredFrom`
        is the binder log before the acquisition. A failure that escapes
        from the open before the try block, or from the finally block's own
        close, skips the release. */
    method ExecuteOn<R>(conn: Connection, action: Callback<R>, expose: bool, pipeline: bool,
                        ghost acquiredFrom: seq<FactoryCall>) returns (r: Result<Returned<R>>)
      requires conn == factory.connection && conn.Valid()
      requires factory.calls == acquiredFrom + [GetConnection]
      modifies factory, conn
      ensures conn.Valid() && factory.bound == old(factory.bound)
      ensures var e := ExecPlan(None, old(conn.pipelined), old(conn.queued), conn.openFault, conn.closeFault,
                                expose, pipeline, action);
        && r == e.result
        && factory.calls == acquiredFrom + e.factoryCalls
        && conn.calls == old(conn.calls) + e.connCalls
        && conn.pipelined == e.pipelined && conn.queued == e.queued
    {
      ghost var acquiredLog := factory.calls;
      var escaped;
      r, escaped := RunAcquired(conn, action, expose, pipeline);
      if !escaped {
        factory.ReleaseConnection();
      }
      ConnectionReleased(None, old(conn.pipelined), old(conn.queued), conn.openFault, conn.closeFault,
                         expose, pipeline, action);
      ReleaseLog(acquiredFrom, acquiredLog, factory.calls, !escaped);
    }

    /** The corrected `execute`: everything after the acquisition runs
        inside an outer try block whose finally releases the connection, so
        the release is reached on every exit path. The calls made, the
        result and the connection's new state are those of
        `ExecPlanReleasing`. */
    method ExecuteReleasing<R>(action: Callback<R>, expose: bool, pipeline: bool) returns (r: Result<Returned<R>>)
      requires factory.Valid()
      modifies factory, factory.connection
      ensures factory.Valid() && factory.bound == old(factory.bound)
      ensures var e := ExecPlanReleasing(old(factory.AcquireFault()), old(factory.connection.pipelined),
                                         old(factory.connection.queued), factory.connection.openFault,
                                         factory.connection.closeFault, expose, pipeline, action);
        && r == e.result
        && factory.calls == old(factory.calls) + e.factoryCalls
        && factory.connection.calls == old(factory.connection.calls) + e.connCalls
        && factory.connection.pipelined == e.pipelined
        && factory.connection.queued == e.queued
    {
      var acquired := factory.GetConnection();
      if acquired.Failure? {
        return Failure(acquired.error);
      }
      ghost var acquiredLog := factory.calls;
      var conn := acquired.value;
      var escaped;
      // outer try block
      r, escaped := RunAcquired(conn, action, expose, pipeline);
      // outer finally block
      factory.ReleaseConnection();
      ReleaseLog(old(factory.calls), acquiredLog, factory.calls, true);
    }

    /** What `execute` does between acquiring and releasing the connection:
        the open before the try block, the try block and the close in the
        finally block. The connection calls, result and pipeline state are
        those of `ExecPlan`; `escaped` tells whether the failure escaped from
        the open or from the finally block's close. */
    method RunAcquired<R>(conn: Connection, action: Callback<R>, expose: bool, pipeline: bool)
      returns (r: Result<Returned<R>>, escaped: bool)
      requires conn.Valid()
      modifies conn
      ensures conn.Valid()
      ensures var e := ExecPlan(None, old(conn.pipelined), old(conn.queued), conn.openFault, conn.closeFault,
                                expose, pipeline, action);
        && r == e.result
        && conn.calls == old(conn.calls) + e.connCalls
        && conn.pipelined == e.pipelined && conn.queued == e.queued
      ensures escaped == (OwnsPipeline(pipeline, old(conn.pipelined)) && (conn.openFault.Some? || conn.closeFault.Some?))
    {
      // the pre- and post-processing hooks are the identity, so whether the
      // connection was already bound does not matter here
      var alreadyPipelined := conn.pipelined;
      var owned := pipeline && !alreadyPipelined;
      ghost var before := conn.calls;
      if owned {
        var open := conn.OpenPipeline();
        if open.Fail? {
          return Failure(open.error), true;
        }
      }
      ghost var afterOpen := conn.calls;
      var outcome, pipelinedClosed := TryBlock(conn, action, expose, owned);
      ghost var afterTry := conn.calls;
      r, escaped := FinallyClose(conn, owned && !pipelinedClosed, outcome);
      if owned {
        OwnedLog(before, afterOpen, afterTry, conn.calls, expose, action.ending.ReturnsNull?, !pipelinedClosed);
      }
    }

    /** The close in the finally block of `execute`: closes a pipeline the
        call opened and has not closed yet. A failing close escapes the
        block (`escaped`) and replaces the outcome. */
    method FinallyClose<R>(conn: Connection, mustClose: bool, outcome: Result<Returned<R>>)
      returns (r: Result<Returned<R>>, escaped: bool)
      modifies conn
      ensures conn.Valid() || !mustClose
      ensures !mustClose ==>
        && r == outcome && !escaped
        && conn.calls == old(conn.calls) && conn.pipelined == old(conn.pipelined) && conn.queued == old(conn.queued)
      ensures mustClose ==>
        && conn.calls == old(conn.calls) + [ConnCall.ClosePipeline] && !conn.pipelined && conn.queued == []
        && escaped == conn.closeFault.Some?
        && r == (if conn.closeFault.Some? then Failure(conn.closeFault.value) else outcome)
    {
      if mustClose {
        var closed := conn.ClosePipeline();
        if closed.Failure? {
          return Failure(closed.error), true;
        }
      }
      return outcome, false;
    }

    /** The try block of `execute`: runs the callback and, when the call owns
        the pipeline, rejects a non-null result or replaces the null one by
        the harvest of the pipeline. */
    method TryBlock<R>(conn: Connection, action: Callback<R>, expose: bool, owned: bool)
      returns (outcome: Result<Returned<R>>, pipelinedClosed: bool)
      requires conn.Valid() && (owned ==> conn.pipelined && conn.queued == [])
      modifies conn
      ensures conn.Valid()
      ensures !owned ==>
        && outcome == DirectResult(action.ending) && !pipelinedClosed
        && conn.calls == old(conn.calls) + [Invoke(expose)]
        && conn.pipelined == old(conn.pipelined)
        && conn.queued == if conn.pipelined then old(conn.queued) + action.issued else old(conn.queued)
      ensures owned && action.ending.ReturnsNull? ==>
        && conn.calls == old(conn.calls) + [Invoke(expose), ConnCall.ClosePipeline]
        && !conn.pipelined && conn.queued == []
        && pipelinedClosed == conn.closeFault.None?
        && outcome == if conn.closeFault.None? then Success(Pipelined(action.issued)) else Failure(conn.closeFault.value)
      ensures owned && !action.ending.ReturnsNull? ==>
        && conn.calls == old(conn.calls) + [Invoke(expose)]
        && conn.pipelined && conn.queued == action.issued && !pipelinedClosed
        && outcome == Failure(if action.ending.Fails? then action.ending.error else InvalidApiUsage(PipelineResultMessage))
    {
      pipelinedClosed := false;
      conn.RunCallback(expose, action.issued);
      assert owned ==> conn.queued == action.issued;
      match action.ending {
        case Fails(e) => return Failure(e), false;
        case Returns(v) => outcome := Success(Direct(v));
        case ReturnsNull => outcome := Success(NoValue);
      }
      if owned {
        if outcome.value.Direct? {
          return Failure(InvalidApiUsage(PipelineResultMessage)), false;
        }
        var harvest := conn.ClosePipeline();
        if harvest.Failure? {
          return Failure(harvest.error), false;
        }
        outcome := Success(Pipelined(harvest.value));
        pipelinedClosed := true;
      }
    }

    /** `execute(action, exposeConnection)`: no pipeline. */
    method ExecuteExposing<R>(action: Callback<R>, expose: bool) returns (r: Result<Returned<R>>)
      requires factory.Valid()
      modifies factory, factory.connection
      ensures factory.Valid() && factory.bound == old(factory.bound)
      ensures var e := ExecPlan(old(factory.AcquireFault()), old(factory.connection.pipelined),
                                old(factory.connection.queued), factory.connection.openFault,
                                factory.connection.closeFault, expose, false, action);
        && r == e.result
        && factory.calls == old(factory.calls) + e.factoryCalls
        && factory.connection.calls == old(factory.connection.calls) + e.connCalls
        && factory.connection.pipelined == e.pipelined
        && factory.connection.queued == e.queued
    {
      r := Execute(action, expose, false);
    }

    /** `execute(action)`: the template's exposure setting, no pipeline. */
    method ExecuteDefault<R>(action: Callback<R>) returns (r: Result<Returned<R>>)
      requires factory.Valid()
      modifies factory, factory.connection
      ensures factory.Valid() && factory.bound == old(factory.bound)
      ensures var e := ExecPlan(old(factory.AcquireFault()), old(factory.connection.pipelined),
                                old(factory.connection.queued), factory.connection.openFault,
                                factory.connection.closeFault, exposeConnection, false, action);
        && r == e.result
        && factory.calls == old(factory.calls) + e.factoryCalls
        && factory.connection.calls == old(factory.connection.calls) + e.connCalls
        && factory.connection.pipelined == e.pipelined
        && factory.connection.queued == e.queued
    {
      r := ExecuteExposing(action, exposeConnection);
    }

    /** Binds a connection, runs the session, and unbinds in the finally
        block: once bound, exactly one bind is followed by exactly one unbind,
        whether the session returns or throws. A failed bind throws before
        the session runs. */
    method ExecuteSession<R>(session: Ending<R>) returns (r: Result<Option<R>>)
      modifies factory
      ensures old(factory.AcquireFault()).Some? ==>
        && r == Failure(old(factory.AcquireFault()).value)
        && factory.calls == old(factory.calls) + [BindConnection]
        && factory.bound == old(factory.bound)
      ensures old(factory.AcquireFault()).None? ==>
        && r == SessionResult(session)
        && factory.calls == old(factory.calls) + [BindConnection, UnbindConnection]
        && !factory.bound
    {
      var bind := factory.BindConnection();
      if bind.Fail? {
        return Failure(bind.error);
      }
      // try block: the session runs against the bound connection
      r := SessionResult(session);
      // finally block
      factory.UnbindConnection();
    }

    method OpsForValue() returns (ops: Operations<T>)
      modifies this`valueOps
      ensures old(valueOps) != null ==> ops == old(valueOps)
      ensures old(valueOps) == null ==> fresh(ops) && ops.kind == ValueOps && ops.template == this
      ensures valueOps == ops
    {
      if valueOps == null {
        valueOps := new Operations(ValueOps, this);
      }
      ops := valueOps;
    }

    method OpsForList() returns (ops: Operations<T>)
      modifies this`listOps
      ensures old(listOps) != null ==> ops == old(listOps)
      ensures old(listOps) == null ==> fresh(ops) && ops.kind == ListOps && ops.template == this
      ensures listOps == ops
    {
      if listOps == null {
        listOps := new Operations(ListOps, this);
      }
      ops := listOps;
    }

    method OpsForSet() returns (ops: Operations<T>)
      modifies this`setOps
      ensures old(setOps) != null ==> ops == old(setOps)
      ensures old(setOps) == null ==> fresh(ops) && ops.kind == SetOps && ops.template == this
      ensures setOps == ops
    {
      if setOps == null {
        setOps := new Operations(SetOps, this);
      }
      ops := setOps;
    }

    method OpsForZSet() returns (ops: Operations<T>)
      modifies this`zSetOps
      ensures old(zSetOps) != null ==> ops == old(zSetOps)
      ensures old(zSetOps) == null ==> fresh(ops) && ops.kind == ZSetOps && ops.template == this
      ensures zSetOps == ops
    {
      if zSetOps == null {
        zSetOps := new Operations(ZSetOps, this);
      }
      ops := zSetOps;
    }

    /** The hash facade is not cached: every call builds a new one. */
    method OpsForHash() returns (ops: Operations<T>)
      ensures fresh(ops) && ops.kind == HashOps && ops.template == this
    {
      ops := new Operations(HashOps, this);
    }
  }
}
