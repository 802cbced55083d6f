/**
 * The per-shard connection state machine of execute.c, one pure function
 * per C routine: each takes the connection record and the answers of the
 * libpq calls the routine makes, and gives the new record together with
 * the routine's outcome.  The Cluster methods in Execute update the
 * connection array in place and are proved equal to these functions.
 */
module ConnMachine {
  import opened ProxyTypes
  import Branch

  /** New connection record and outcome of one routine. */
  datatype Step = Step(conn: Conn, status: Status)

  /**
   * Record invariant kept by every routine: the row cursor sits inside the
   * stored result (at 0 when there is none), a stored result is a row set,
   * and a connection that is still tuning never counts as DONE.
   */
  predicate ConnOk(c: Conn)
  {
    && (c.res.None? ==> c.pos == 0)
    && (c.res.Some? ==> 0 <= c.pos <= |c.res.value.rows| && c.res.value.status == TuplesOk)
    && (c.state == CDone ==> !c.tuning)
  }

  /** Only the state field differs. */
  predicate OnlyState(c: Conn, d: Conn)
  {
    d == c.(state := d.state)
  }

  /** The fields that belong to the round, not to the socket, are kept. */
  predicate RoundKept(c: Conn, d: Conn)
  {
    d.runOn == c.runOn && d.pos == c.pos
  }

  /** flush_connection: the sign of PQflush decides the state. */
  function Flush(c: Conn, flushed: int): (r: Step)
    ensures OnlyState(c, r.conn)
    ensures r.status.Pass? <==> flushed >= 0
    ensures r.status.Pass? ==> r.conn.state == (if flushed > 0 then CQueryWrite else CQueryRead)
    ensures r.status.Fail? ==> r == Step(c, Fail(FlushFailed))
    ensures ConnOk(c) && r.conn.state != CDone ==> ConnOk(r.conn)
  {
    if flushed > 0 then Step(c.(state := CQueryWrite), Pass)
    else if flushed == 0 then Step(c.(state := CQueryRead), Pass)
    else Step(c, Fail(FlushFailed))
  }

  /** Age of the connection reaches the configured lifetime. */
  predicate TooOld(cf: Config, c: Conn, now: int)
  {
    cf.connectionLifetime > 0 && now - c.connectTime >= cf.connectionLifetime
  }

  /**
   * check_old_conn: Ok(false) means drop the connection.  A connection with
   * a bad status or past its lifetime is dropped; one used within the idle
   * interval is kept without looking at the socket; otherwise pending input
   * on an idle socket means drop.
   */
  function CheckOldConn(cf: Config, c: Conn, now: int, rem: Remote): (r: Result<bool>)
    ensures !rem.statusOk || TooOld(cf, c, now) ==> r == Ok(false)
    ensures rem.statusOk && !TooOld(cf, c, now) && now - c.queryTime < cf.idleCheck ==> r == Ok(true)
    ensures r == Ok(true) ==> rem.statusOk && !TooOld(cf, c, now)
    ensures r.Err? ==> r.error == StaleCheckFailed && rem.pendingPoll < 0
    ensures r.Ok? && now - c.queryTime >= cf.idleCheck ==> (r.value <==> rem.statusOk && !TooOld(cf, c, now) && rem.pendingPoll == 0)
  {
    if !rem.statusOk then Ok(false)
    else if cf.connectionLifetime > 0 && now - c.connectTime >= cf.connectionLifetime then Ok(false)
    else if now - c.queryTime < cf.idleCheck then Ok(true)
    else if rem.pendingPoll > 0 then Ok(false)
    else if rem.pendingPoll < 0 then Err(StaleCheckFailed)
    else Ok(true)
  }

  /** A reused connection passes the liveness check. */
  predicate Reusable(cf: Config, c: Conn, now: int, rem: Remote)
  {
    (c.state == CReady || c.state == CDone) && CheckOldConn(cf, c, now, rem) == Ok(true)
  }

  /**
   * The tail of prepare_conn as written: stamp the connect time and start a
   * new connection.  The tuning flag is left as it was.
   */
  function LaunchAsWritten(c: Conn, now: int, rem: Remote): Step
  {
    var d := c.(connectTime := now);
    match rem.start
    case StartNoMemory => Step(d, Fail(OutOfMemory))
    case StartBad => Step(d.(state := CConnectWrite), Fail(ConnectStartFailed))
    case Started => Step(d.(state := CConnectWrite), Pass)
  }

  /**
   * prepare_conn as written: DONE falls into READY, READY keeps the socket
   * when the liveness check passes, every other state drops to NONE, and
   * then a new connection is launched.
   */
  function PrepareAsWritten(cf: Config, c: Conn, now: int, rem: Remote): Step
  {
    var c1 := if c.state == CDone then c.(state := CReady) else c;
    if c1.state == CReady then
      match CheckOldConn(cf, c1, now, rem)
      case Err(e) => Step(c1, Fail(e))
      case Ok(keep) => if keep then Step(c1, Pass) else LaunchAsWritten(c1.(state := CNone), now, rem)
    else LaunchAsWritten(c1.(state := CNone), now, rem)
  }

  /** Launch of a new connection, which also starts its tuning afresh. */
  function Launch(c: Conn, now: int, rem: Remote): (r: Step)
    ensures r.conn == c.(connectTime := now, tuning := false, state := r.conn.state)
    ensures r.conn.state == (if rem.start == StartNoMemory then c.state else CConnectWrite)
    ensures r.status.Pass? <==> rem.start == Started
  {
    var s := LaunchAsWritten(c, now, rem);
    Step(s.conn.(tuning := false), s.status)
  }

  /**
   * prepare_conn with the tuning flag cleared on reconnect.  A connection
   * comes out READY only when it was READY or DONE and passed the liveness
   * check; otherwise a fresh connection is being opened, stamped with now.
   * DONE never survives.
   */
  function Prepare(cf: Config, c: Conn, now: int, rem: Remote): (r: Step)
    ensures r.conn.state != CDone
    ensures Reusable(cf, c, now, rem) <==> r.status.Pass? && r.conn.state == CReady
    ensures Reusable(cf, c, now, rem) ==> r.conn == c.(state := CReady)
    ensures r.status.Pass? && r.conn.state != CReady ==>
      r.conn.state == CConnectWrite && r.conn.connectTime == now && !r.conn.tuning
    ensures r.status.Fail? ==> r.status.error in {StaleCheckFailed, OutOfMemory, ConnectStartFailed}
    ensures RoundKept(c, r.conn) && r.conn.res == c.res && r.conn.queryTime == c.queryTime
    ensures ConnOk(c) ==> ConnOk(r.conn)
  {
    var c1 := if c.state == CDone then c.(state := CReady) else c;
    if c1.state == CReady then
      match CheckOldConn(cf, c1, now, rem)
      case Err(e) => Step(c1, Fail(e))
      case Ok(keep) => if keep then Step(c1, Pass) else Launch(c1.(state := CNone), now, rem)
    else Launch(c1.(state := CNone), now, rem)
  }

  /** The remote encoding differs from the local one. */
  predicate EncodingMismatch(local: Local, rem: Remote)
  {
    rem.clientEncoding.Some? && rem.clientEncoding.value != local.encoding
  }

  /** New record, outcome, and whether the corrective SET was issued. */
  datatype TuneStep = TuneStep(conn: Conn, status: Status, tuned: bool)

  /**
   * tune_connection: record whether the server is on the local branch; on
   * an encoding mismatch send a SET and enter QUERY_WRITE with tuning on,
   * unless tuning was already on, which is an error rather than a loop;
   * without a mismatch tuning is switched off.
   */
  function Tune(c: Conn, local: Local, rem: Remote): (r: TuneStep)
    ensures r.conn.sameVer == Branch.SameBranch(rem.serverVersion, local.version)
    ensures EncodingMismatch(local, rem) && c.tuning ==> r.status == Fail(TuningDidNotApply) && !r.tuned
    ensures EncodingMismatch(local, rem) && !c.tuning ==>
      r.tuned && r.conn.tuning && (r.status.Pass? ==> IsQuerying(r.conn.state))
    ensures !EncodingMismatch(local, rem) ==>
      r.status.Pass? && !r.tuned && r.conn == c.(sameVer := r.conn.sameVer, tuning := false)
    ensures r.status.Fail? ==> r.status.error in {TuningDidNotApply, SendFailed, FlushFailed}
    ensures RoundKept(c, r.conn) && r.conn.res == c.res && r.conn.connectTime == c.connectTime && r.conn.queryTime == c.queryTime
  {
    var c1 := c.(sameVer := Branch.SameBranch(rem.serverVersion, local.version));
    if EncodingMismatch(local, rem) && c.tuning then
      TuneStep(c1, Fail(TuningDidNotApply), false)
    else if EncodingMismatch(local, rem) then
      var c2 := c1.(tuning := true, state := CQueryWrite);
      if !rem.sendOk then TuneStep(c2, Fail(SendFailed), true)
      else
        var f := Flush(c2, rem.flush);
        TuneStep(f.conn, f.status, true)
    else
      TuneStep(c1.(tuning := false), Pass, false)
  }

  /**
   * New record, outcome, and the query that went out: None while tuning,
   * Some(binary) when PQsendQueryParams was issued with that result format.
   */
  datatype SendStep = SendStep(conn: Conn, status: Status, query: Option<bool>)

  /** The return type can be received in binary: has_recv for a scalar, use_binary for a record. */
  function RetBinary(ret: RetType): bool
  {
    match ret
    case RetScalar(_, hasRecv) => hasRecv
    case RetComposite(_, useBinary) => useBinary
  }

  /**
   * send_query: stamp the query time, tune, and unless tuning send the real
   * query, asking for binary results only when binary transfer is enabled,
   * the server is on the local branch and the return type can receive
   * binary.
   */
  function Send(cf: Config, retBinary: bool, c: Conn, now: int, local: Local, rem: Remote): (r: SendStep)
    ensures r.conn.queryTime == now && r.conn.connectTime == c.connectTime
    ensures RoundKept(c, r.conn) && r.conn.res == c.res
    ensures r.query.Some? ==> !r.conn.tuning
    ensures r.query.Some? ==>
      (r.query.value <==> !cf.disableBinary && Branch.SameBranch(rem.serverVersion, local.version) && retBinary)
    ensures EncodingMismatch(local, rem) ==> r.query.None? && (c.tuning ==> r.status == Fail(TuningDidNotApply))
    ensures EncodingMismatch(local, rem) && !c.tuning && r.status.Pass? ==> r.conn.tuning
    ensures !EncodingMismatch(local, rem) ==> r.query.Some? && !r.conn.tuning
    ensures r.status.Pass? ==> IsQuerying(r.conn.state)
    ensures ConnOk(c) ==> ConnOk(r.conn)
  {
    var c0 := c.(queryTime := now);
    var t := Tune(c0, local, rem);
    if t.status.Fail? then SendStep(t.conn, t.status, None)
    else if t.conn.tuning then SendStep(t.conn, Pass, None)
    else
      var binary := !cf.disableBinary && t.conn.sameVer && retBinary;
      var c2 := t.conn.(state := CQueryWrite);
      if !rem.sendOk then SendStep(c2, Fail(SendFailed), Some(binary))
      else
        var f := Flush(c2, rem.flush);
        SendStep(f.conn, f.status, Some(binary))
  }

  /** New record, outcome, and whether more results may follow. */
  datatype Fetch = Fetch(conn: Conn, status: Status, more: bool)

  /**
   * another_result: NULL ends the query (READY after tuning, DONE
   * otherwise); a row set is kept unless one is already held; a command
   * result is discarded; anything else is a remote error.
   */
  function TakeResult(c: Conn, next: Option<PgResult>): (r: Fetch)
    ensures next.None? ==> r == Fetch(c.(state := if c.tuning then CReady else CDone), Pass, false)
    ensures next.Some? && next.value.status == TuplesOk ==>
      if c.res.Some? then r == Fetch(c, Fail(DoubleResult), true)
      else r == Fetch(c.(res := next), Pass, true)
    ensures next.Some? && next.value.status == CommandOk ==> r == Fetch(c, Pass, true)
    ensures next.Some? && next.value.status == OtherStatus ==> r == Fetch(c, Fail(RemoteError), true)
  {
    match next
    case None => Fetch(c.(state := if c.tuning then CReady else CDone), Pass, false)
    case Some(res) =>
      match res.status
      case TuplesOk => if c.res.Some? then Fetch(c, Fail(DoubleResult), true) else Fetch(c.(res := next), Pass, true)
      case CommandOk => Fetch(c, Pass, true)
      case OtherStatus => Fetch(c, Fail(RemoteError), true)
  }

  /** Number of row sets among the results. */
  function TuplesCount(rs: seq<PgResult>): nat
  {
    if rs == [] then 0 else (if rs[0].status == TuplesOk then 1 else 0) + TuplesCount(rs[1..])
  }

  /** The first row set among the results. */
  function FirstTuples(rs: seq<PgResult>): Option<PgResult>
  {
    if rs == [] then None else if rs[0].status == TuplesOk then Some(rs[0]) else FirstTuples(rs[1..])
  }

  /** Every result is a row set or a command result. */
  predicate NoRemoteError(rs: seq<PgResult>)
  {
    forall k :: 0 <= k < |rs| ==> rs[k].status != OtherStatus
  }

  /**
   * The QUERY_READ drain of handle_conn: fetch every available result, then
   * end the query if PQgetResult has signalled the end.  It succeeds exactly
   * when no result is an error and at most one row set is held in all; the
   * row set is kept and the query ends in READY while tuning, DONE otherwise.
   */
  function Drain(c: Conn, rs: seq<PgResult>, finished: bool): (r: Step)
    ensures r.status.Pass? <==> NoRemoteError(rs) && TuplesCount(rs) + (if c.res.Some? then 1 else 0) <= 1
    ensures r.status.Pass? ==> r.conn.res == (if c.res.Some? then c.res else FirstTuples(rs))
    ensures r.status.Pass? ==> r.conn.state == (if !finished then c.state else if c.tuning then CReady else CDone)
    ensures r.status.Fail? ==> r.status.error in {DoubleResult, RemoteError} && r.conn.state == c.state
    ensures r.conn == c.(state := r.conn.state, res := r.conn.res)
    ensures c.res.Some? ==> r.conn.res == c.res
    ensures ConnOk(c) ==> ConnOk(r.conn)
    decreases |rs|
  {
    if rs == [] then
      if finished then Step(TakeResult(c, None).conn, Pass) else Step(c, Pass)
    else
      var f := TakeResult(c, Some(rs[0]));
      if f.status.Fail? then Step(f.conn, f.status)
      else Drain(f.conn, rs[1..], finished)
  }

  /** The states handle_conn may move a connection to. */
  predicate HandleMove(from: ConnState, to: ConnState)
  {
    match from
    case CConnectWrite | CConnectRead => to in {CConnectWrite, CConnectRead, CReady}
    case CQueryWrite => to in {CQueryWrite, CQueryRead}
    case CQueryRead => to in {CQueryRead, CReady, CDone}
    case _ => to == from
  }

  /**
   * handle_conn: advance the connect handshake, re-flush a query being
   * written, or drain a query being read; NONE, READY and DONE are left
   * as they are.
   */
  function Handle(c: Conn, rem: Remote): (r: Step)
    ensures r.status.Pass? ==> HandleMove(c.state, r.conn.state)
    ensures !InFlight(c.state) ==> r == Step(c, Pass)
    ensures IsConnecting(c.state) ==>
      (r.status.Fail? <==> rem.connectPoll == PollingActive || rem.connectPoll == PollingFailed)
    ensures IsConnecting(c.state) && rem.connectPoll == PollingOk ==> r.conn.state == CReady
    ensures c.state == CQueryWrite ==> r == Flush(c, rem.flush)
    ensures c.state == CQueryRead ==> r == (if rem.consumeOk then Drain(c, rem.results, rem.finished) else Step(c, Fail(ConsumeInputFailed)))
    ensures RoundKept(c, r.conn) && r.conn.tuning == c.tuning
    ensures ConnOk(c) ==> ConnOk(r.conn)
  {
    match c.state
    case CConnectRead | CConnectWrite =>
      (match rem.connectPoll
       case PollingWriting => Step(c.(state := CConnectWrite), Pass)
       case PollingReading => Step(c.(state := CConnectRead), Pass)
       case PollingOk => Step(c.(state := CReady), Pass)
       case PollingActive => Step(c, Fail(ConnectPollFailed))
       case PollingFailed => Step(c, Fail(ConnectPollFailed)))
    case CQueryWrite => Flush(c, rem.flush)
    case CQueryRead =>
      if !rem.consumeOk then Step(c, Fail(ConsumeInputFailed))
      else Drain(c, rem.results, rem.finished)
    case CNone => Step(c, Pass)
    case CDone => Step(c, Pass)
    case CReady => Step(c, Pass)
  }

  /**
   * check_timeouts: an error only when the timeout of the current phase is
   * positive and strictly exceeded; connections outside the connect and
   * query phases never time out.
   */
  function CheckTimeouts(cf: Config, c: Conn, now: int): (r: Status)
    ensures r.Fail? <==>
      (IsConnecting(c.state) && cf.connectTimeout > 0 && now - c.connectTime > cf.connectTimeout) ||
      (IsQuerying(c.state) && cf.queryTimeout > 0 && now - c.queryTime > cf.queryTimeout)
    ensures r.Fail? ==> r.error == (if IsConnecting(c.state) then ConnectTimeout else QueryTimeout)
  {
    match c.state
    case CConnectRead | CConnectWrite =>
      if cf.connectTimeout <= 0 then Pass
      else if now - c.connectTime <= cf.connectTimeout then Pass
      else Fail(ConnectTimeout)
    case CQueryRead | CQueryWrite =>
      if cf.queryTimeout <= 0 then Pass
      else if now - c.queryTime <= cf.queryTimeout then Pass
      else Fail(QueryTimeout)
    case _ => Pass
  }

  /**
   * As written, prepare_conn keeps the tuning flag across a reconnect: a
   * round aborted while the corrective SET was in flight leaves tuning on,
   * the next round reconnects, and the fresh connection's first encoding
   * mismatch is reported as a SET that "does not seem to apply" although no
   * SET was ever sent on it.
   */
  lemma StaleTuningRejectsFreshConnection(cf: Config, c: Conn, now: int, local: Local, rem: Remote, retBinary: bool)
    requires c.tuning && c.state == CQueryRead
    requires rem.start == Started && rem.connectPoll == PollingOk
    requires EncodingMismatch(local, rem)
    ensures var p := PrepareAsWritten(cf, c, now, rem);
            var h := Handle(p.conn, rem);
            && p.status == Pass && p.conn.state == CConnectWrite
            && h.status == Pass && h.conn.state == CReady
            && Send(cf, retBinary, h.conn, now, local, rem).status == Fail(TuningDidNotApply)
  {
  }

  /**
   * With the flag cleared on reconnect, the same fresh connection gets its
   * corrective SET; the error is kept for a mismatch that survives a SET
   * sent on the same connection.
   */
  lemma FreshConnectionIsTuned(cf: Config, c: Conn, now: int, local: Local, rem: Remote, retBinary: bool)
    requires c.state == CQueryRead
    requires rem.start == Started && rem.connectPoll == PollingOk
    requires EncodingMismatch(local, rem)
    ensures var p := Prepare(cf, c, now, rem);
            var h := Handle(p.conn, rem);
            var s := Send(cf, retBinary, h.conn, now, local, rem);
            && h.conn.state == CReady
            && s.status != Fail(TuningDidNotApply) && s.query.None?
            && (s.status.Pass? ==> s.conn.tuning)
  {
  }
}
