/**
 * Shared vocabulary of the PL/Proxy executor model: the fatal errors, the
 * per-connection record, the abstract libpq result, the cluster
 * configuration and the answers the transport library gives.
 */
module ProxyTypes {

  datatype Option<T> = None | Some(value: T)

  /** Every fatal error of the core; each stands for one plproxy_error/conn_error site. */
  datatype ProxyError =
    | FlushFailed                 // PQflush returned a negative value
    | SendFailed                  // PQsendQuery / PQsendQueryParams refused the query
    | TuningDidNotApply           // encoding still differs after the corrective SET
    | OutOfMemory                 // PQconnectStart returned NULL
    | ConnectStartFailed          // CONNECTION_BAD right after PQconnectStart
    | ConnectPollFailed           // PQconnectPoll said ACTIVE or FAILED
    | ConsumeInputFailed          // PQconsumeInput returned 0
    | DoubleResult                // a second row set for one query
    | RemoteError                 // a result that is neither rows nor command-ok
    | StaleCheckFailed            // poll() in the stale-connection check failed
    | PollFailed                  // poll() of the wait set failed
    | ConnectTimeout
    | QueryTimeout
    | RunOnMismatch               // run_on does not match res after the loop
    | UnfinishedConnection
    | LostResult
    | RemoteResultError           // stored result is not TUPLES_OK after the loop
    | PartOutOfRange              // exact partition number outside [0, part_count)
    | HashNull                    // hash function returned NULL
    | HashTypeInvalid             // hash result is not int2, int4 or int8
    | HashCountNotOne             // several (or no) hash rows for a non-set function
    | RunTypeUnset
    | ScalarArity                 // scalar function but the result has != 1 column
    | TooFewFields
    | TooManyFields
    | UnnamedColumn(col: int)     // column number (1-based) without a name
    | FieldMissing(name: string)  // no result column carries this attribute's name
    | NoResult                    // the result stream is exhausted
    | Canceled                    // the surrounding query was cancelled
    | EventsExhausted             // the model's finite event script ended while waiting

  datatype Status = Pass | Fail(error: ProxyError)

  datatype Result<T> = Ok(value: T) | Err(error: ProxyError)

  /** The seven states of one shard connection. */
  datatype ConnState =
    CNone | CConnectWrite | CConnectRead | CReady | CQueryWrite | CQueryRead | CDone

  predicate IsConnecting(s: ConnState) { s == CConnectWrite || s == CConnectRead }
  predicate IsQuerying(s: ConnState) { s == CQueryWrite || s == CQueryRead }
  /** States with I/O in flight: the ones that take part in poll(). */
  predicate InFlight(s: ConnState) { IsConnecting(s) || IsQuerying(s) }

  /** PQresultStatus, reduced to what the executor distinguishes. */
  datatype ResultStatus = TuplesOk | CommandOk | OtherStatus

  /** One cell of a remote row; PQgetlength of a value is the length of its text. */
  datatype Cell = NullCell | Text(data: string)

  /** A PGresult: status, column names (PQfname may be NULL), formats and rows. */
  datatype PgResult = PgResult(
    status: ResultStatus,
    names: seq<Option<string>>,
    formats: seq<int>,
    rows: seq<seq<Cell>>)

  /** PQgetisnull/PQgetvalue: an index outside the result reads as NULL, as in libpq. */
  function CellAt(r: PgResult, row: int, col: int): Cell
  {
    if 0 <= row < |r.rows| && 0 <= col < |r.rows[row]| then r.rows[row][col] else NullCell
  }

  /** PQfformat: 0 (text) for a column outside the result, as in libpq. */
  function FormatOf(r: PgResult, col: int): int
  {
    if 0 <= col < |r.formats| then r.formats[col] else 0
  }

  /** The fields of ProxyConnection that the executor updates. */
  datatype Conn = Conn(
    state: ConnState,
    tuning: bool,
    sameVer: bool,
    connectTime: int,
    queryTime: int,
    res: Option<PgResult>,
    runOn: bool,
    pos: int)

  /** True when the connection has no unread rows left for the result stream. */
  predicate Exhausted(c: Conn)
  {
    c.res.None? || c.pos == |c.res.value.rows|
  }

  /** ProxyConfig plus the compile-time idle-check interval of plproxy.h. */
  datatype Config = Config(
    connectTimeout: int,
    queryTimeout: int,
    connectionLifetime: int,
    disableBinary: bool,
    idleCheck: int)

  /** The local server's settings the tuning step compares against. */
  datatype Local = Local(encoding: string, version: string)

  datatype PollingStatus = PollingWriting | PollingReading | PollingOk | PollingActive | PollingFailed

  /** PQconnectStart: a handle, NULL, or a handle already in CONNECTION_BAD. */
  datatype StartOutcome = Started | StartNoMemory | StartBad

  /**
   * What the transport library answers for one connection at one moment.
   * Each field is the value of one libpq call; an operation reads only the
   * fields of the calls it makes.
   */
  datatype Remote = Remote(
    statusOk: bool,                   // PQstatus(db) == CONNECTION_OK
    pendingPoll: int,                 // poll(POLLIN, 0) in the stale check, after EINTR retries
    start: StartOutcome,              // PQconnectStart
    serverVersion: string,            // PQparameterStatus(db, "server_version")
    clientEncoding: Option<string>,   // PQparameterStatus(db, "client_encoding")
    sendOk: bool,                     // PQsendQuery / PQsendQueryParams
    flush: int,                       // PQflush
    connectPoll: PollingStatus,       // PQconnectPoll
    consumeOk: bool,                  // PQconsumeInput
    results: seq<PgResult>,           // results PQgetResult hands out before PQisBusy
    finished: bool)                   // whether PQgetResult then returns NULL

  /** Return type of the proxied function. */
  datatype RetType =
    | RetScalar(isVoid: bool, hasRecv: bool)
    | RetComposite(attNames: seq<string>, useBinary: bool)

  /** ASCII case folding, as strcasecmp does in the C locale. */
  function Lower(c: char): char
  {
    if 'A' <= c <= 'Z' then (c as int + 32) as char else c
  }

  /** strcasecmp(a, b) == 0 */
  predicate CaseEq(a: string, b: string)
  {
    |a| == |b| && forall k :: 0 <= k < |a| ==> Lower(a[k]) == Lower(b[k])
  }
}
