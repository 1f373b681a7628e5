// The decisions of pkg/database/db.go: the GORM log-level parser, the
// checks and configuration that Init performs around the connection, and
// how the tracing plugin names a span, which attributes it attaches and
// when it marks a span as failed. The driver, the connection pool and the
// tracer are outside the model; the answers they give (a failed connect, a
// refused plugin) are parameters.
module Database {
  import opened Wrappers

  // ---------------------------------------------------------------------------
  // parseLogLevel
  // ---------------------------------------------------------------------------

  /** GORM's logger levels. */
  datatype LogLevel = Silent | Error | Warn | Info

  /** The configuration text that selects each level. */
  function LogLevelName(l: LogLevel): string {
    match l
    case Silent => "silent"
    case Error => "error"
    case Warn => "warn"
    case Info => "info"
  }

  /**
   * `parseLogLevel`: the four names, compared exactly as written; anything
   * else, upper-case spellings such as "WARN" or "Error" included, falls
   * back to Info without an error.
   */
  function ParseLogLevel(level: string): (r: LogLevel)
    ensures r == Silent <==> level == "silent"
    ensures r == Error <==> level == "error"
    ensures r == Warn <==> level == "warn"
    ensures r == Info <==> level !in {"silent", "error", "warn"}
  {
    match level
    case "silent" => Silent
    case "error" => Error
    case "warn" => Warn
    case "info" => Info
    case _ => Info
  }

  /** Every level's own name selects it. */
  lemma LogLevelNameRoundTrip(l: LogLevel)
    ensures ParseLogLevel(LogLevelName(l)) == l
  {
  }

  // ---------------------------------------------------------------------------
  // Init
  // ---------------------------------------------------------------------------

  datatype ConnConfig = ConnConfig(dsn: string, maxIdleConns: int, maxOpenConns: int, connMaxLifetime: int)

  datatype LoggerConfig = LoggerConfig(level: string, ignoreRecordNotFound: bool, colorful: bool, logFilePath: string)

  datatype TracingConfig = TracingConfig(enabled: bool, operationPrefix: string, recordSQL: bool, recordAffectedRows: bool)

  /** `DatabaseConfig`; the slow-query threshold is a float and is left out. */
  datatype DatabaseConfig = DatabaseConfig(
    write: ConnConfig,
    read: seq<ConnConfig>,
    policy: string,
    logger: LoggerConfig,
    tracing: TracingConfig)

  /** Where GORM's logger writes. */
  datatype LogOutput = Stdout | LogFile(path: string)

  datatype LoggerSettings = LoggerSettings(level: LogLevel, ignoreRecordNotFound: bool, colorful: bool, output: LogOutput)

  datatype PoolSettings = PoolSettings(maxIdleConns: int, maxOpenConns: int, connMaxLifetime: int)

  /** `dbresolver.Config`: the write source, the read replicas and whether the random policy is set. */
  datatype ResolverConfig = ResolverConfig(sources: seq<string>, replicas: seq<string>, randomPolicy: bool)

  /** `TracingPlugin` without its tracer handle. */
  datatype TracingPlugin = TracingPlugin(operationPrefix: string, recordSQL: bool, recordAffectedRows: bool)

  /** What a successful Init has set up on the connection. */
  datatype Db = Db(
    dsn: string,
    logger: LoggerSettings,
    pool: PoolSettings,
    resolver: Option<ResolverConfig>,
    resolverPool: Option<PoolSettings>,
    tracing: Option<TracingPlugin>)

  /**
   * The outside world's answers during Init: whether the log file opens,
   * and the error (if any) of connecting, of getting the pool handle, of
   * installing the resolver and of installing the tracing plugin.
   */
  datatype InitAnswers = InitAnswers(
    logFileOpens: bool,
    connectErr: Option<string>,
    poolErr: Option<string>,
    resolverErr: Option<string>,
    tracingErr: Option<string>)

  const EmptyDsnMessage := "主数据库DSN不能为空"
  const ConnectPrefix := "连接主数据库失败: "
  const PoolPrefix := "获取数据库连接失败: "
  const ResolverPrefix := "配置读写分离失败: "
  const TracingPrefix := "配置链路追踪失败: "

  /**
   * The resolver configuration Init assembles when there are read replicas:
   * the write DSN as the one source, each replica's DSN in order, and the
   * random policy only for the exact policy text "random".
   */
  method BuildResolverConfig(config: DatabaseConfig) returns (rc: ResolverConfig)
    ensures rc.sources == [config.write.dsn]
    ensures |rc.replicas| == |config.read|
    ensures forall i :: 0 <= i < |config.read| ==> rc.replicas[i] == config.read[i].dsn
    ensures rc.randomPolicy <==> config.policy == "random"
  {
    rc := ResolverConfig([], [], false);
    rc := rc.(sources := [config.write.dsn]);
    var replicas: seq<string> := [];
    for i := 0 to |config.read|
      invariant |replicas| == i
      invariant forall j :: 0 <= j < i ==> replicas[j] == config.read[j].dsn
    {
      replicas := replicas + [config.read[i].dsn];
    }
    rc := rc.(replicas := replicas);
    if config.policy == "random" {
      rc := rc.(randomPolicy := true);
    }
  }

  /** Init succeeds exactly when every step it takes succeeds. */
  predicate InitSucceeds(config: DatabaseConfig, answers: InitAnswers) {
    && config.write.dsn != ""
    && answers.connectErr.None?
    && answers.poolErr.None?
    && (|config.read| > 0 ==> answers.resolverErr.None?)
    && (config.tracing.enabled ==> answers.tracingErr.None?)
  }

  /**
   * `Init`: refuse an empty write DSN before anything else; set up the
   * logger; connect; set the pool limits; with read replicas, install a
   * resolver; with tracing enabled, install the tracing plugin. Each failing
   * step stops Init with its own message wrapping the cause.
   */
  method Init(config: DatabaseConfig, answers: InitAnswers) returns (db: Option<Db>, err: Option<string>)
    ensures config.write.dsn == "" ==> db.None? && err == Some(EmptyDsnMessage)
    ensures db.Some? <==> err.None?
    ensures db.Some? <==> InitSucceeds(config, answers)
    ensures config.write.dsn != "" && answers.connectErr.Some? ==>
      err == Some(ConnectPrefix + answers.connectErr.value)
    ensures config.write.dsn != "" && answers.connectErr.None? && answers.poolErr.Some? ==>
      err == Some(PoolPrefix + answers.poolErr.value)
    ensures config.write.dsn != "" && answers.connectErr.None? && answers.poolErr.None? &&
            |config.read| > 0 && answers.resolverErr.Some? ==>
      err == Some(ResolverPrefix + answers.resolverErr.value)
    ensures config.write.dsn != "" && answers.connectErr.None? && answers.poolErr.None? &&
            (|config.read| > 0 ==> answers.resolverErr.None?) &&
            config.tracing.enabled && answers.tracingErr.Some? ==>
      err == Some(TracingPrefix + answers.tracingErr.value)
    ensures db.Some? ==>
      && db.value.dsn == config.write.dsn
      && db.value.logger.level == ParseLogLevel(config.logger.level)
      && db.value.logger.ignoreRecordNotFound == config.logger.ignoreRecordNotFound
      && db.value.logger.colorful == config.logger.colorful
      && db.value.logger.output ==
           (if config.logger.logFilePath != "" && answers.logFileOpens then LogFile(config.logger.logFilePath) else Stdout)
      && db.value.pool == PoolSettings(config.write.maxIdleConns, config.write.maxOpenConns, config.write.connMaxLifetime)
    ensures db.Some? ==>
      && (db.value.resolver.Some? <==> |config.read| > 0)
      && (db.value.resolver.Some? ==> db.value.resolverPool == Some(db.value.pool))
      && (db.value.resolver.Some? ==> (db.value.resolver.value.randomPolicy <==> config.policy == "random"))
      && (db.value.resolver.Some? ==> db.value.resolver.value.sources == [config.write.dsn])
      && (db.value.resolver.Some? ==> |db.value.resolver.value.replicas| == |config.read|)
      && (db.value.resolver.Some? ==>
            forall i :: 0 <= i < |config.read| ==> db.value.resolver.value.replicas[i] == config.read[i].dsn)
    ensures db.Some? ==>
      db.value.tracing == (if config.tracing.enabled
                           then Some(TracingPlugin(config.tracing.operationPrefix, config.tracing.recordSQL,
                                                   config.tracing.recordAffectedRows))
                           else None)
  {
    if config.write.dsn == "" {
      return None, Some(EmptyDsnMessage);
    }
    var output := Stdout;
    if config.logger.logFilePath != "" {
      if answers.logFileOpens {
        output := LogFile(config.logger.logFilePath);
      }
    }
    var logger := LoggerSettings(ParseLogLevel(config.logger.level), config.logger.ignoreRecordNotFound,
                                 config.logger.colorful, output);
    if answers.connectErr.Some? {
      return None, Some(ConnectPrefix + answers.connectErr.value);
    }
    if answers.poolErr.Some? {
      return None, Some(PoolPrefix + answers.poolErr.value);
    }
    var pool := PoolSettings(config.write.maxIdleConns, config.write.maxOpenConns, config.write.connMaxLifetime);
    var conn := Db(config.write.dsn, logger, pool, None, None, None);
    if |config.read| > 0 {
      var rc := BuildResolverConfig(config);
      if answers.resolverErr.Some? {
        return None, Some(ResolverPrefix + answers.resolverErr.value);
      }
      conn := conn.(resolver := Some(rc), resolverPool := Some(pool));
    }
    if config.tracing.enabled {
      if answers.tracingErr.Some? {
        return None, Some(TracingPrefix + answers.tracingErr.value);
      }
      var tp := TracingPlugin(config.tracing.operationPrefix, config.tracing.recordSQL,
                              config.tracing.recordAffectedRows);
      conn := conn.(tracing := Some(tp));
    }
    return Some(conn), None;
  }

  // ---------------------------------------------------------------------------
  // The tracing plugin's spans
  // ---------------------------------------------------------------------------

  /** The statement GORM is running, when it has one. */
  datatype Statement = Statement(sql: string, table: string, rowsAffected: int)

  /** The kind of statement a pair of callbacks brackets. */
  datatype Operation = CreateOp | QueryOp | UpdateOp | DeleteOp | RawOp

  /** The operation names the callbacks pass to startSpan. */
  function OperationName(op: Operation): string {
    match op
    case CreateOp => "gorm.Create"
    case QueryOp => "gorm.Query"
    case UpdateOp => "gorm.Update"
    case DeleteOp => "gorm.Delete"
    case RawOp => "gorm.RawSQL"
  }

  /** A started span: its name, its attributes in the order they were added, and its kind. */
  datatype SpanStart = SpanStart(name: string, attributes: seq<(string, string)>, clientKind: bool)

  /**
   * `startSpan`: name the span after the operation, prefixed when a prefix
   * is configured; always attach the database system and the operation; add
   * the SQL text when recording SQL and there is a non-empty statement, and
   * the table when the statement names one.
   */
  method StartSpan(tp: TracingPlugin, operation: string, stmt: Option<Statement>) returns (span: SpanStart)
    ensures span.name == tp.operationPrefix + operation
    ensures span.clientKind
    ensures |span.attributes| >= 2
    ensures span.attributes[..2] == [("db.system", "mysql"), ("db.operation", operation)]
    ensures var withSql := tp.recordSQL && stmt.Some? && stmt.value.sql != "";
            var withTable := stmt.Some? && stmt.value.table != "";
            span.attributes[2..] ==
              (if withSql then [("db.statement", stmt.value.sql)] else []) +
              (if withTable then [("db.table", stmt.value.table)] else [])
  {
    var opName := operation;
    if tp.operationPrefix != "" {
      opName := tp.operationPrefix + operation;
    }
    var opts := [("db.system", "mysql"), ("db.operation", operation)];
    if tp.recordSQL && stmt.Some? && stmt.value.sql != "" {
      opts := opts + [("db.statement", stmt.value.sql)];
    }
    if stmt.Some? && stmt.value.table != "" {
      opts := opts + [("db.table", stmt.value.table)];
    }
    span := SpanStart(opName, opts, true);
  }

  /**
   * With one prefix, the five callbacks start spans under five different
   * names, so a trace tells the operations apart.
   */
  lemma SpanNamesTellOperationsApart(prefix: string, a: Operation, b: Operation)
    requires a != b
    ensures prefix + OperationName(a) != prefix + OperationName(b)
  {
    var na, nb := OperationName(a), OperationName(b);
    assert (prefix + na)[|prefix|..] == na;
    assert (prefix + nb)[|prefix|..] == nb;
  }

  /** GORM's error on a statement: record-not-found, or any other. */
  datatype DbError = RecordNotFound | OtherError(message: string)

  /** How endSpan closes a span. */
  datatype SpanStatus = StatusOk | StatusError(description: string)

  datatype SpanEnd = SpanEnd(status: SpanStatus, recordedError: Option<DbError>, rowsAffected: Option<int>)

  /** The text of a GORM error. */
  function ErrorText(e: DbError): string {
    match e
    case RecordNotFound => "record not found"
    case OtherError(m) => m
  }

  /**
   * `endSpan`: mark the span failed, and record the error, only for an error
   * other than record-not-found; otherwise mark it ok. Attach the affected
   * row count when configured and there is a non-empty statement.
   */
  method EndSpan(tp: TracingPlugin, dbErr: Option<DbError>, stmt: Option<Statement>) returns (end: SpanEnd)
    ensures end.status.StatusError? <==> dbErr.Some? && dbErr.value != RecordNotFound
    ensures end.status.StatusError? ==> end.status.description == ErrorText(dbErr.value)
    ensures end.recordedError.Some? <==> end.status.StatusError?
    ensures end.recordedError.Some? ==> end.recordedError == dbErr
    ensures end.rowsAffected.Some? <==> tp.recordAffectedRows && stmt.Some? && stmt.value.sql != ""
    ensures end.rowsAffected.Some? ==> end.rowsAffected.value == stmt.value.rowsAffected
  {
    end := SpanEnd(StatusOk, None, None);
    if dbErr.Some? && dbErr.value != RecordNotFound {
      end := end.(status := StatusError(ErrorText(dbErr.value)), recordedError := dbErr);
    }
    if tp.recordAffectedRows && stmt.Some? && stmt.value.sql != "" {
      end := end.(rowsAffected := Some(stmt.value.rowsAffected));
    }
  }
}
