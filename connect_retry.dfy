/**
 * The error classification inside `retry_connect_errors` (sqlx-cli/src/lib.rs): each failed
 * connection attempt is handed to the backoff loop either as transient (retry later) or as
 * permanent (give up now). Only a refused, reset or aborted connection is worth retrying.
 */
module ConnectRetry {
  import opened Wrappers

  /** `std::io::ErrorKind`. */
  datatype IoErrorKind =
    | NotFound | PermissionDenied | ConnectionRefused | ConnectionReset | ConnectionAborted
    | NotConnected | AddrInUse | AddrNotAvailable | BrokenPipe | AlreadyExists | WouldBlock
    | InvalidInput | InvalidData | TimedOut | WriteZero | Interrupted | Unsupported
    | UnexpectedEof | OutOfMemory | Other

  /** `sqlx::Error`, with each payload reduced to its message. */
  datatype SqlxError =
    | Configuration(message: string)
    | DatabaseError(message: string)
    | Io(kind: IoErrorKind, message: string)
    | Tls(message: string)
    | Protocol(message: string)
    | RowNotFound
    | TypeNotFound(typeName: string)
    | ColumnIndexOutOfBounds(index: nat, len: nat)
    | ColumnNotFound(column: string)
    | ColumnDecode(columnIndex: string, message: string)
    | Decode(message: string)
    | PoolTimedOut
    | PoolClosed
    | WorkerCrashed
    | Migrate(message: string)

  /** `backoff::Error<sqlx::Error>`. */
  datatype BackoffError = Transient(err: SqlxError) | Permanent(err: SqlxError)

  /** The part of `ConnectOpts` the retry loop reads. */
  datatype ConnectOpts = ConnectOpts(databaseUrl: string, connectTimeout: nat)

  /** The I/O error kinds that mean the server is not (yet) accepting connections. */
  const RetryableKinds: set<IoErrorKind> := {ConnectionRefused, ConnectionReset, ConnectionAborted}

  /**
   * The `map_err` closure: wrap the error unchanged, as transient exactly when it is an
   * I/O error of a retryable kind.
   */
  function Classify(e: SqlxError): (r: BackoffError)
    ensures r.err == e
    ensures r.Transient? <==> e.Io? && e.kind in RetryableKinds
    ensures !e.Io? ==> r.Permanent?
  {
    match e
    case Io(kind, _) => (
      match kind
      case ConnectionRefused => Transient(e)
      case ConnectionReset => Transient(e)
      case ConnectionAborted => Transient(e)
      case _ => Permanent(e))
    case _ => Permanent(e)
  }

  /**
   * One attempt of the retried operation: `connect(&opts.database_url)` with its error
   * classified. A success passes through unchanged.
   */
  function Attempt<T>(opts: ConnectOpts, connect: string -> Result<T, SqlxError>): (r: Result<T, BackoffError>)
    ensures connect(opts.databaseUrl).Ok? <==> r.Ok?
    ensures r.Ok? ==> r.value == connect(opts.databaseUrl).value
    ensures r.Err? ==> r.error.err == connect(opts.databaseUrl).error
    ensures r.Err? ==> (r.error.Transient? <==> connect(opts.databaseUrl).error.Io? &&
                                                connect(opts.databaseUrl).error.kind in RetryableKinds)
  {
    match connect(opts.databaseUrl)
    case Ok(v) => Ok(v)
    case Err(e) => Err(Classify(e))
  }

  /** `ExponentialBackoffBuilder::new().with_max_elapsed_time(...)`: only the budget is modelled. */
  datatype BackoffPolicy = BackoffPolicy(maxElapsedSeconds: Option<nat>)

  /** The retry budget is the connect timeout, in seconds, and always bounded. */
  function RetryPolicy(opts: ConnectOpts): (p: BackoffPolicy)
    ensures p.maxElapsedSeconds.Some? && p.maxElapsedSeconds.value == opts.connectTimeout
  {
    BackoffPolicy(Some(opts.connectTimeout))
  }
}
