/**
 * The DIN-SQL pipeline class: its connection state, the Human/Assistant
 * wrapper for Claude prompts, the execute / revise once / execute again shape
 * of `query`, and the staged generation of `get_sql` with its "SELECT"
 * fallbacks. The language model and the database are parameters standing
 * for what those services answer; the prompts rendered from templates are
 * represented by the inputs they are rendered from.
 */
module DinSqlLib {
  import opened Wrappers
  import opened Strings
  import opened Fences
  import opened SchemaText

  /** An open database connection, known by the URL it was opened with. */
  datatype Connection = Connection(url: string)

  /** Opening a connection gives a connection, or a SQLAlchemy error that is only logged. */
  datatype ConnectOutcome = Connected(connection: Connection) | ConnectFailed(message: string)

  /** Executing a statement gives its rows, or a SQLAlchemy error with its message. */
  datatype Execution = Rows(rows: seq<seq<string>>) | SqlError(message: string)

  /**
   * A call to the model gives the text of its reply, `None` (a client error,
   * which the call logs and turns into `None`), or an exception it lets through.
   */
  datatype Generation = Reply(text: string) | NoReply | Raised(error: Exception)

  /** Which prompt the first stage of `get_sql` sends: the medium one, or the hard one with its sub-questions. */
  datatype Stage = Medium | Hard(subQuestions: string)

  /** What `query` returns: rows, or the text of the error of the revised statement. */
  datatype QueryOutcome = QueryRows(rows: seq<seq<string>>) | ErrorText(text: string)

  /** The inputs the debugger prompt is rendered from. */
  datatype DebugRequest = DebugRequest(question: string, database: string, sql: string, sqlDialect: Option<string>, metaData: string)

  const ClaudePrefix: string := "anthropic.claude"
  const HumanTurn: string := "\n\nHuman: "
  const AssistantTurn: string := "\n\nAssistant: "

  /** `token_summary` after a reset. */
  const ZeroTokens: map<string, int> := map["input_tokens" := 0, "output_tokens" := 0]

  // ------------------------------------------------------------ connections

  const AthenaScheme: string := "awsathena+rest://:@athena."

  /**
   * The connection string `athena_connect` opens: the Athena endpoint of the
   * region, the database as its path, then the staging directory and the
   * catalog as query parameters, the catalog last.
   */
  function AthenaUrl(catalogName: string, database: string, s3Prefix: string, region: string): (u: string)
    ensures StartsWith(u, AthenaScheme + region + ".amazonaws.com:443/" + database + "?s3_staging_dir=s3://")
    ensures EndsWith(u, "&catalog_name=" + catalogName)
    ensures Contains(u, "?s3_staging_dir=s3://" + s3Prefix + "&")
  {
    var host := AthenaScheme + region + ".amazonaws.com:443/" + database;
    var staging := "?s3_staging_dir=s3://" + s3Prefix + "&";
    var tail := "catalog_name=" + catalogName;
    var u := host + staging + tail;
    ConcatEnds(host + "?s3_staging_dir=s3://", s3Prefix + "&" + tail);
    assert u == (host + "?s3_staging_dir=s3://") + (s3Prefix + "&" + tail);
    ConcatEnds(host + "?s3_staging_dir=s3://" + s3Prefix, "&" + tail);
    assert u == (host + "?s3_staging_dir=s3://" + s3Prefix) + ("&" + tail);
    assert "&" + tail == "&catalog_name=" + catalogName;
    ContainsSelf(staging);
    ContainsConcat(host, staging, staging);
    ContainsConcat(host + staging, tail, staging);
    u
  }

  /**
   * The database URI `db_connect` opens: the engine as scheme, the
   * credentials before "@", the host and port, and the database name as path.
   */
  function DbUri(engine: string, user: string, password: string, host: string, port: string, name: string): (u: string)
    ensures StartsWith(u, engine + "://" + user + ":" + password + "@")
    ensures EndsWith(u, ":" + port + "/" + name)
    ensures var c := engine + "://" + user + ":" + password + "@";
      var t := ":" + port + "/" + name;
      |c| + |t| <= |u| && u[|c|..|u| - |t|] == host
  {
    var creds := engine + "://" + user + ":" + password + "@";
    var u := creds + host + ":" + port + "/" + name;
    FramedMiddle(creds, host, ":" + port + "/" + name);
    assert u == creds + host + (":" + port + "/" + name);
    ConcatEnds(creds, host + ":" + port + "/" + name);
    assert u == creds + (host + ":" + port + "/" + name);
    ConcatEnds(creds + host, ":" + port + "/" + name);
    assert u == (creds + host) + (":" + port + "/" + name);
    u
  }

  // ---------------------------------------------------------------- revision

  /** The sixteen spaces that indent each continuation line of the revision prompt. */
  const Indent: string := "                "

  const FixRequest: string :=
    "Please provide a new SQL query that correctly fixes the invalid SQL statement below using the SQL Error information."

  const TagRequest: string :=
    "Only provide one new SQL query in your response and use begin and end tags of \""

  /** The prompt's text up to the start tag: the request and the indented instruction lines. */
  const RevisionHead: string := "Human:\n" + Indent + FixRequest + "\n" + Indent + TagRequest
  const TagsJoin: string := "\" and \""
  const TagsEnd: string := "\" respectively:\n" + Indent + "Invalid SQL Statement: "
  const ErrorLead: string := "\n" + Indent + "SQL Error: "
  const RevisionTail: string := "\n\n" + Indent + "Assistant:\n" + Indent

  /**
   * The prompt `revise_query_with_error` sends, with the statement and the
   * error message in it: one Human turn, ending with the opening of the
   * Assistant turn.
   */
  function RevisionPrompt(sqlQuery: string, errorMessage: string, start: string, end: string): (p: string)
    ensures StartsWith(p, RevisionHead) && EndsWith(p, RevisionTail)
  {
    var middle := start + TagsJoin + end + TagsEnd + sqlQuery + ErrorLead + errorMessage;
    Framed(RevisionHead, middle, RevisionTail);
    RevisionHead + middle + RevisionTail
  }

  /** The revision prompt quotes the failed statement, the error and both tags. */
  lemma RevisionPromptMentions(sqlQuery: string, errorMessage: string, start: string, end: string)
    ensures var p := RevisionPrompt(sqlQuery, errorMessage, start, end);
      Contains(p, sqlQuery) && Contains(p, errorMessage) && Contains(p, start) && Contains(p, end)
  {
    FourSlots(RevisionHead, start, TagsJoin, end, TagsEnd, sqlQuery, ErrorLead, errorMessage, RevisionTail);
  }

  /** Each of the four slots of a nine-piece text occurs in it. */
  lemma FourSlots(h: string, a: string, m1: string, b: string, m2: string, c: string, m3: string, d: string, t: string)
    ensures var p := h + (a + m1 + b + m2 + c + m3 + d) + t;
      Contains(p, a) && Contains(p, b) && Contains(p, c) && Contains(p, d)
  {
    var x1 := a + m1;
    ContainsSelf(a);
    ContainsConcat(a, m1, a);
    var x2 := x1 + b;
    ContainsSelf(b);
    ContainsConcat(x1, b, a);
    ContainsConcat(x1, b, b);
    var x3 := x2 + m2;
    ContainsConcat(x2, m2, a);
    ContainsConcat(x2, m2, b);
    var x4 := x3 + c;
    ContainsSelf(c);
    ContainsConcat(x3, c, a);
    ContainsConcat(x3, c, b);
    ContainsConcat(x3, c, c);
    var x5 := x4 + m3;
    ContainsConcat(x4, m3, a);
    ContainsConcat(x4, m3, b);
    ContainsConcat(x4, m3, c);
    var mid := x5 + d;
    ContainsSelf(d);
    ContainsConcat(x5, d, a);
    ContainsConcat(x5, d, b);
    ContainsConcat(x5, d, c);
    ContainsConcat(x5, d, d);
    InFrame(h, mid, t, a);
    InFrame(h, mid, t, b);
    InFrame(h, mid, t, c);
    InFrame(h, mid, t, d);
  }

  /** What the middle of a framed text contains, the text contains. */
  lemma InFrame(h: string, m: string, t: string, x: string)
    requires Contains(m, x)
    ensures Contains(h + m + t, x)
  {
    ContainsConcat(h, m, x);
    ContainsConcat(h + m, t, x);
  }

  /**
   * `revise_query_with_error`: the first block of the model's reply between
   * `start` and `end`. A reply of `None` has no `split` (`AttributeError`);
   * a reply without `start` has no second piece (`IndexError`).
   */
  function ReviseQueryWithError(sqlQuery: string, errorMessage: string, start: string, end: string,
                                generate: string -> Generation): (r: Result<string, Exception>)
    ensures var g := generate(RevisionPrompt(sqlQuery, errorMessage, start, end));
      (r.Success? <==> g.Reply? && start != "" && end != "" && Contains(g.text, start)) &&
      (r.Success? ==> FencedAfterFirst(g.text, start, end, r.value)) &&
      (g.Reply? && start != "" && !Contains(g.text, start) ==> r == Failure(IndexError)) &&
      (g.NoReply? ==> r == Failure(AttributeError)) &&
      (g.Raised? ==> r == Failure(g.error))
  {
    match generate(RevisionPrompt(sqlQuery, errorMessage, start, end))
    case Reply(text) => FirstFence(text, start, end)
    case NoReply => Failure(AttributeError)
    case Raised(e) => Failure(e)
  }

  // ------------------------------------------------------------ get_sql

  /**
   * The SQL a call leaves in `SQL` inside the `try` of `get_sql`: the reply,
   * `None` after a client error, or "SELECT" when an exception is caught.
   */
  function Generated(g: Generation): (r: Option<string>)
    ensures r.None? <==> g.NoReply?
    ensures g.Reply? ==> r == Some(g.text)
    ensures g.Raised? ==> r == Some("SELECT")
  {
    match g
    case Reply(text) => Some(text)
    case NoReply => None
    case Raised(_) => Some("SELECT")
  }

  const SubQuestionsMarker: string := "questions = ["

  /**
   * The first stage of `get_sql`: the value of `SQL` after the classification
   * dispatch and its `except` clause. The EASY call passes `word_in_mouth`
   * to a prompt maker that has no such parameter, so it raises `TypeError`
   * before the model is called and leaves "SELECT"; NESTED never holds the
   * sub-question marker and takes the medium prompt like NON-NESTED; an
   * unknown classification leaves `None`.
   */
  function FirstStage(classification: string, generate: Stage -> Generation): (r: Option<string>)
    ensures classification == "EASY" ==> r == Some("SELECT")
    ensures classification == "NON-NESTED" || classification == "NESTED" ==> r == Generated(generate(Medium))
    ensures classification != "EASY" && classification != "NON-NESTED" && classification != "NESTED" ==> r.None?
  {
    HeadNotContained("NESTED", SubQuestionsMarker);
    if classification == "EASY" then Generated(Raised(TypeError))
    else if classification == "NON-NESTED" then Generated(generate(Medium))
    else if classification == "NESTED" then
      if Contains(classification, SubQuestionsMarker) then
        match FirstFence(classification, "questions = [\"", "\"]")
        case Success(sub) => Generated(generate(Hard(sub)))
        case Failure(_) => Some("SELECT")
      else Generated(generate(Medium))
    else None
  }

  /**
   * The SQL handed to the debugger: the block after the last "```sql" of the
   * first stage's text, or "SELECT" when slicing `None` raises.
   */
  function PreDebugSql(classification: string, generate: Stage -> Generation): (sql: string)
    ensures !Contains(sql, SqlClose)
  {
    match FirstStage(classification, generate)
    case Some(text) => LastSqlFence(text)
    case None => LastSqlFenceOfSelect(); "SELECT"
  }

  /** "NESTED" never holds the sub-question marker, so it is answered with the medium prompt. */
  lemma NestedIsMedium(generate: Stage -> Generation)
    ensures !Contains("NESTED", SubQuestionsMarker)
    ensures FirstStage("NESTED", generate) == FirstStage("NON-NESTED", generate)
  {
    HeadNotContained("NESTED", SubQuestionsMarker);
  }

  /**
   * The pre-debug SQL is "SELECT" for the EASY classification, for an
   * unknown one, and when the medium call gives no reply or raises.
   */
  lemma PreDebugSqlFallbacks(classification: string, generate: Stage -> Generation)
    requires classification == "EASY" ||
      (classification != "NON-NESTED" && classification != "NESTED") ||
      ((classification == "NON-NESTED" || classification == "NESTED") && !generate(Medium).Reply?)
    ensures PreDebugSql(classification, generate) == "SELECT"
  {
    NestedIsMedium(generate);
    LastSqlFenceOfSelect();
  }

  /** With a reply to the medium prompt, the pre-debug SQL is the reply's last SQL block. */
  lemma PreDebugSqlOfReply(classification: string, generate: Stage -> Generation)
    requires classification == "NON-NESTED" || classification == "NESTED"
    requires generate(Medium).Reply?
    ensures PreDebugSql(classification, generate) == LastSqlFence(generate(Medium).text)
  {
    NestedIsMedium(generate);
  }

  /**
   * The schema description the debugger prompt carries: fields, foreign keys
   * and primary keys, or the `IndexError` one of the listings raises.
   */
  function DebuggerMetaData(catalog: seq<Schema>, database: string): (r: Result<string, Exception>)
    ensures r.Failure? <==> ForeignKeysText(catalog, Some(database)).Failure? || PrimaryKeysText(catalog, Some(database)).Failure?
    ensures r.Success? ==>
      var fields := FieldsText(catalog, Some(database));
      var pks := "Primary_keys = " + PrimaryKeysText(catalog, Some(database)).value;
      StartsWith(r.value, fields) && EndsWith(r.value, pks) &&
      |fields| + |pks| <= |r.value| &&
      r.value[|fields|..|r.value| - |pks|] == "Foreign_keys = " + ForeignKeysText(catalog, Some(database)).value + "\n"
  {
    match ForeignKeysText(catalog, Some(database))
    case Failure(e) => Failure(e)
    case Success(fks) =>
      match PrimaryKeysText(catalog, Some(database))
      case Failure(e) => Failure(e)
      case Success(pks) =>
        var fields := FieldsText(catalog, Some(database));
        var middle := "Foreign_keys = " + fks + "\n";
        var tail := "Primary_keys = " + pks;
        Framed(fields, middle, tail);
        FramedMiddle(fields, middle, tail);
        Success(fields + middle + tail)
  }

  /** What `get_sql` returns, or the exception that escapes it. */
  function GetSqlOutcome(connected: bool, sqlDialect: Option<string>, question: string, database: string,
                         classification: string, generate: Stage -> Generation, catalog: seq<Schema>,
                         debug: DebugRequest -> Generation): (r: Result<string, Exception>)
    ensures !connected ==> r == Failure(External("NoInspectionAvailable"))
  {
    if !connected then Failure(External("NoInspectionAvailable"))
    else
      match DebuggerMetaData(catalog, database)
      case Failure(e) => Failure(e)
      case Success(meta) =>
        DebuggerAnswer(debug(DebugRequest(question, database, PreDebugSql(classification, generate), sqlDialect, meta)))
  }

  /**
   * The SQL read from the debugger's reply: its first "```sql" block on one
   * line, stripped. A reply of `None` has no `replace` (`AttributeError`).
   */
  function DebuggerAnswer(reply: Generation): (r: Result<string, Exception>)
    ensures r.Success? <==> reply.Reply? && Contains(reply.text, SqlOpen)
    ensures reply.Reply? && !Contains(reply.text, SqlOpen) ==> r == Failure(IndexError)
    ensures reply.NoReply? ==> r == Failure(AttributeError)
    ensures r.Success? ==>
      Contains(ReplaceNewlines(reply.text), SqlOpen) &&
      exists body :: FencedAfterFirst(ReplaceNewlines(reply.text), SqlOpen, SqlClose, body) && r.value == Strip(body)
    ensures r.Success? ==>
      '\n' !in r.value && !Contains(r.value, SqlClose) &&
      (|r.value| == 0 || (!IsSpace(r.value[0]) && !IsSpace(r.value[|r.value| - 1])))
  {
    match reply
    case Reply(text) => DebuggedSql(text)
    case NoReply => Failure(AttributeError)
    case Raised(e) => Failure(e)
  }

  /**
   * The SQL `get_sql` returns holds no newline and no "```", and starts and
   * ends with a non-space character.
   */
  lemma GetSqlResultShape(connected: bool, sqlDialect: Option<string>, question: string, database: string,
                          classification: string, generate: Stage -> Generation, catalog: seq<Schema>,
                          debug: DebugRequest -> Generation)
    ensures var r := GetSqlOutcome(connected, sqlDialect, question, database, classification, generate, catalog, debug);
      r.Success? ==>
      var sql := r.value;
      '\n' !in sql && !Contains(sql, SqlClose) && (|sql| == 0 || (!IsSpace(sql[0]) && !IsSpace(sql[|sql| - 1])))
  {
    if GetSqlOutcome(connected, sqlDialect, question, database, classification, generate, catalog, debug).Success? {
      var meta := DebuggerMetaData(catalog, database);
      var reply := debug(DebugRequest(question, database, PreDebugSql(classification, generate), sqlDialect, meta.value));
      assert GetSqlOutcome(connected, sqlDialect, question, database, classification, generate, catalog, debug)
        == DebuggerAnswer(reply);
    }
  }

  /**
   * What `get_sql` returns is the debugger's answer to the pre-debug SQL and
   * the schema metadata: the first "```sql" block of its reply, its newlines
   * made spaces, stripped.
   */
  lemma GetSqlResultOfDebugger(connected: bool, sqlDialect: Option<string>, question: string, database: string,
                               classification: string, generate: Stage -> Generation, catalog: seq<Schema>,
                               debug: DebugRequest -> Generation)
    ensures var r := GetSqlOutcome(connected, sqlDialect, question, database, classification, generate, catalog, debug);
      r.Success? ==>
      connected && DebuggerMetaData(catalog, database).Success? &&
      var req := DebugRequest(question, database, PreDebugSql(classification, generate), sqlDialect,
                              DebuggerMetaData(catalog, database).value);
      var sql := r.value;
      debug(req).Reply? && Contains(ReplaceNewlines(debug(req).text), SqlOpen) &&
      exists body :: FencedAfterFirst(ReplaceNewlines(debug(req).text), SqlOpen, SqlClose, body) && sql == Strip(body)
  {
    if GetSqlOutcome(connected, sqlDialect, question, database, classification, generate, catalog, debug).Success? {
      var meta := DebuggerMetaData(catalog, database);
      var req := DebugRequest(question, database, PreDebugSql(classification, generate), sqlDialect, meta.value);
      assert GetSqlOutcome(connected, sqlDialect, question, database, classification, generate, catalog, debug)
        == DebuggerAnswer(debug(req));
    }
  }

  /** A debugger reply without a "```sql" block makes `get_sql` raise `IndexError`. */
  lemma GetSqlMissingBlock(sqlDialect: Option<string>, question: string, database: string,
                           classification: string, generate: Stage -> Generation, catalog: seq<Schema>,
                           debug: DebugRequest -> Generation)
    requires DebuggerMetaData(catalog, database).Success?
    requires var req := DebugRequest(question, database, PreDebugSql(classification, generate), sqlDialect,
                                     DebuggerMetaData(catalog, database).value);
      debug(req).Reply? && !Contains(debug(req).text, SqlOpen)
    ensures GetSqlOutcome(true, sqlDialect, question, database, classification, generate, catalog, debug) == Failure(IndexError)
  {
  }

  // --------------------------------------------------------------- the class

  class DinSql {
    var dbUn: Option<string>
    var dbPwd: Option<string>
    var dbHost: Option<string>
    var dbPort: Option<string>
    var dbName: Option<string>
    var dbEngine: Option<string>
    var dbConnection: Option<Connection>
    var sqlDialect: Option<string>
    var tokenSummary: map<string, int>
    const modelId: string
    const maxTokensToSample: nat

    /** A client with no database settings, no connection and zeroed token counts. */
    constructor (bedrockModelId: string)
      ensures modelId == bedrockModelId && maxTokensToSample == 8000
      ensures dbUn.None? && dbPwd.None? && dbHost.None? && dbPort.None? && dbName.None? && dbEngine.None?
      ensures dbConnection.None? && sqlDialect.None?
      ensures tokenSummary == ZeroTokens
    {
      dbUn := None;
      dbPwd := None;
      dbHost := None;
      dbPort := None;
      dbName := None;
      dbEngine := None;
      dbConnection := None;
      sqlDialect := None;
      modelId := bedrockModelId;
      maxTokensToSample := 8000;
      tokenSummary := ZeroTokens;
    }

    /**
     * `athena_connect`: open the Athena connection string built from the
     * region given, or the client's region when none (or "") is given. Only
     * a successful connection changes anything: the connection and the
     * "presto" dialect are set together.
     */
    method AthenaConnect(catalogName: string, database: string, s3Prefix: string, region: Option<string>,
                         clientRegion: string, connect: string -> ConnectOutcome)
      modifies this
      ensures var reg := if region.None? || region.value == "" then clientRegion else region.value;
        var outcome := connect(AthenaUrl(catalogName, database, s3Prefix, reg));
        if outcome.Connected? then dbConnection == Some(outcome.connection) && sqlDialect == Some("presto")
        else dbConnection == old(dbConnection) && sqlDialect == old(sqlDialect)
      ensures dbUn == old(dbUn) && dbPwd == old(dbPwd) && dbHost == old(dbHost) && dbPort == old(dbPort)
      ensures dbName == old(dbName) && dbEngine == old(dbEngine) && tokenSummary == old(tokenSummary)
    {
      var reg := if region.None? || region.value == "" then clientRegion else region.value;
      var url := AthenaUrl(catalogName, database, s3Prefix, reg);
      match connect(url) {
        case Connected(c) =>
          dbConnection := Some(c);
          sqlDialect := Some("presto");
        case ConnectFailed(_) =>
      }
    }

    /**
     * `db_connect`: record the six settings and take the engine name as the
     * dialect, whether or not the connection then opens; the connection is
     * replaced only when it does.
     */
    method DbConnect(user: string, password: string, host: string, port: string, name: string, engine: string,
                     connect: string -> ConnectOutcome)
      modifies this
      ensures dbUn == Some(user) && dbPwd == Some(password) && dbHost == Some(host)
      ensures dbPort == Some(port) && dbName == Some(name) && dbEngine == Some(engine)
      ensures sqlDialect == Some(engine)
      ensures var outcome := connect(DbUri(engine, user, password, host, port, name));
        dbConnection == if outcome.Connected? then Some(outcome.connection) else old(dbConnection)
      ensures tokenSummary == old(tokenSummary)
    {
      dbUn := Some(user);
      dbPwd := Some(password);
      dbHost := Some(host);
      dbPort := Some(port);
      dbName := Some(name);
      dbEngine := Some(engine);
      sqlDialect := Some(engine);
      var uri := DbUri(engine, user, password, host, port, name);
      match connect(uri) {
        case Connected(c) =>
          dbConnection := Some(c);
        case ConnectFailed(_) =>
      }
    }

    /** `reset_token_calculator`: both counts back to zero, nothing else touched. */
    method ResetTokenCalculator()
      modifies this
      ensures tokenSummary == ZeroTokens
      ensures tokenSummary["input_tokens"] == 0 && tokenSummary["output_tokens"] == 0
      ensures dbUn == old(dbUn) && dbPwd == old(dbPwd) && dbHost == old(dbHost) && dbPort == old(dbPort)
      ensures dbName == old(dbName) && dbEngine == old(dbEngine)
      ensures dbConnection == old(dbConnection) && sqlDialect == old(sqlDialect)
    {
      tokenSummary := ZeroTokens;
    }

    /**
     * `bedrock_claude_prompt_maker`: for a Claude model the prompt is wrapped
     * in a Human turn and an open Assistant turn, and can be read back from
     * between them; any other model gets it unchanged.
     */
    function BedrockClaudePromptMaker(prompt: string): (r: string)
      ensures StartsWith(modelId, ClaudePrefix) ==>
        |r| == |HumanTurn| + |prompt| + |AssistantTurn| &&
        r[..|HumanTurn|] == HumanTurn && r[|r| - |AssistantTurn|..] == AssistantTurn &&
        r[|HumanTurn|..|r| - |AssistantTurn|] == prompt
      ensures !StartsWith(modelId, ClaudePrefix) ==> r == prompt
    {
      if StartsWith(modelId, ClaudePrefix) then HumanTurn + prompt + AssistantTurn else prompt
    }

    /**
     * `query`: execute the statement; on a SQLAlchemy error ask the model
     * for a revision and execute that once. At most two statements run, the
     * second only after the first failed; when it fails too the error text
     * is returned instead of rows. Without a connection `execute` is looked
     * up on `None` (`AttributeError`); a revision that cannot be extracted
     * raises out of `query`.
     */
    method Query(sql: string, execute: (Connection, string) -> Execution, generate: string -> Generation)
      returns (r: Result<QueryOutcome, Exception>, executed: seq<string>)
      ensures |executed| <= 2
      ensures dbConnection.None? ==> r == Failure(AttributeError) && executed == []
      ensures dbConnection.Some? ==> |executed| >= 1 && executed[0] == sql
      ensures |executed| == 2 ==>
        var first := execute(dbConnection.value, sql);
        first.SqlError? && ReviseQueryWithError(sql, first.message, SqlOpen, SqlClose, generate) == Success(executed[1])
      ensures r.Success? && r.value.QueryRows? ==>
        |executed| >= 1 && execute(dbConnection.value, executed[|executed| - 1]) == Rows(r.value.rows)
      ensures r.Success? && r.value.ErrorText? ==>
        |executed| == 2 && execute(dbConnection.value, executed[1]).SqlError? &&
        r.value.text == "SQLAlchemy error: " + execute(dbConnection.value, executed[1]).message
      ensures r.Failure? && dbConnection.Some? ==>
        |executed| == 1 && execute(dbConnection.value, sql).SqlError? &&
        ReviseQueryWithError(sql, execute(dbConnection.value, sql).message, SqlOpen, SqlClose, generate) == Failure(r.error)
    {
      if dbConnection.None? {
        return Failure(AttributeError), [];
      }
      var connection := dbConnection.value;
      executed := [sql];
      match execute(connection, sql) {
        case Rows(rows) =>
          r := Success(QueryRows(rows));
        case SqlError(message) =>
          var revised := ReviseQueryWithError(sql, message, SqlOpen, SqlClose, generate);
          if revised.Failure? {
            return Failure(revised.error), executed;
          }
          executed := executed + [revised.value];
          match execute(connection, revised.value) {
            case Rows(rows) =>
              r := Success(QueryRows(rows));
            case SqlError(again) =>
              r := Success(ErrorText("SQLAlchemy error: " + again));
          }
      }
    }

    /**
     * `get_sql`: the classification picks the prompt of the first stage and
     * `SQL` is rebound through its `except` clauses; the slice of the last
     * SQL block goes to the debugger, whose reply, with newlines flattened,
     * gives the first SQL block, stripped. Only the debugger stage lets
     * exceptions out.
     */
    method GetSql(question: string, database: string, classification: string, generate: Stage -> Generation,
                  catalog: seq<Schema>, debug: DebugRequest -> Generation)
      returns (r: Result<string, Exception>)
      ensures r == GetSqlOutcome(dbConnection.Some?, sqlDialect, question, database, classification, generate, catalog, debug)
    {
      var sql: Option<string> := None;
      if classification == "EASY" {
        // the easy prompt maker rejects `word_in_mouth` before the model is called
        sql := Generated(Raised(TypeError));
      } else if classification == "NON-NESTED" {
        sql := Generated(generate(Medium));
      } else if classification == "NESTED" {
        NestedIsMedium(generate);
        if Contains(classification, SubQuestionsMarker) {
          // "NESTED" holds no sub-question marker: the hard prompt is never sent
          assert false;
        }
        sql := Generated(generate(Medium));
      }
      var pre: string;
      if sql.Some? {
        pre := LastSqlFence(sql.value);
      } else {
        pre := "SELECT";
      }
      if dbConnection.None? {
        return Failure(External("NoInspectionAvailable"));
      }
      var fields := FindFields(catalog, Some(database));
      var fks := FindForeignKeys(catalog, Some(database));
      if fks.Failure? {
        return Failure(fks.error);
      }
      var pks := FindPrimaryKeys(catalog, Some(database));
      if pks.Failure? {
        return Failure(pks.error);
      }
      var metaData := fields + ("Foreign_keys = " + fks.value + "\n") + ("Primary_keys = " + pks.value);
      assert DebuggerMetaData(catalog, database) == Success(metaData);
      r := DebuggerAnswer(debug(DebugRequest(question, database, pre, sqlDialect, metaData)));
    }
  }
}
