/**
  The `POST /ask` handler of the backend: the prompt template, the SQL
  gate applied to the language model's completion, and the mapping of each
  outcome to an HTTP response. The completion service and the database are
  opaque: the handler is given what each of them answers.
*/
module Server {
  import opened Wrappers
  import opened Text
  import opened Rows

  // ---------------------------------------------------------------------
  // Prompt builder
  // ---------------------------------------------------------------------

  /** Everything the prompt template holds before the question: the role,
      the four allowed tables with their columns, and the output rules. */
  const PromptHead: string :=
    "\n"
    + "You are an AI assistant that translates natural language business questions into SQL SELECT queries.\n"
    + "Use only the following tables and columns:\n"
    + "\n"
    + "TABLE: customers (id, name, age, signup_date, region)\n"
    + "TABLE: orders (id, customer_id, order_date)\n"
    + "TABLE: order_items (id, order_id, product_id, quantity)\n"
    + "TABLE: products (id, name, category, price)\n"
    + "\n"
    + "Return only a valid MySQL SELECT query based on the question below.\n"
    + "Do NOT include explanations, comments, or semicolons.\n"
    + "\n"
    + "Question: \""

  /** What the template holds after the question. */
  const PromptTail: string := "\"\n"

  /** The prompt: the fixed head, the question as it is (no escaping), and
      the closing quote. */
  function BuildPrompt(question: string): (p: string)
    ensures StartsWith(p, PromptHead) && EndsWith(p, PromptTail)
    ensures |p| == |PromptHead| + |question| + |PromptTail|
  {
    PromptHead + question + PromptTail
  }

  /** Reads the question back out of a prompt. */
  function QuestionOfPrompt(prompt: string): string
    requires |PromptHead| + |PromptTail| <= |prompt|
  {
    prompt[|PromptHead|..|prompt| - |PromptTail|]
  }

  /** The question sits verbatim between the fixed head and tail, whatever
      characters (quotes included) it contains. */
  lemma PromptEmbedsQuestion(question: string)
    ensures |BuildPrompt(question)| == |PromptHead| + |question| + |PromptTail|
    ensures BuildPrompt(question)[..|PromptHead|] == PromptHead
    ensures BuildPrompt(question)[|PromptHead| + |question|..] == PromptTail
    ensures QuestionOfPrompt(BuildPrompt(question)) == question
  {
    var p := BuildPrompt(question);
    assert p[..|PromptHead|] == PromptHead;
    assert p[|PromptHead| + |question|..] == PromptTail;
    assert p[|PromptHead|..|p| - |PromptTail|] == question;
  }

  /** Distinct questions give distinct prompts. */
  lemma PromptInjective(q1: string, q2: string)
    requires BuildPrompt(q1) == BuildPrompt(q2)
    ensures q1 == q2
  {
    PromptEmbedsQuestion(q1);
    PromptEmbedsQuestion(q2);
  }

  // ---------------------------------------------------------------------
  // SQL gate
  // ---------------------------------------------------------------------

  /** The query after the trailing `;` is dropped: the trimmed completion,
      less its last character when that is `;`; at most one character
      shorter than the trimmed completion and a prefix of it. */
  function StripTerminator(completion: string): (q: string)
    ensures |q| <= |Trim(completion)| <= |q| + 1
    ensures q == Trim(completion)[..|q|]
  {
    var trimmed := Trim(completion);
    if EndsWith(trimmed, ";") then trimmed[..|trimmed| - 1] else trimmed
  }

  /** Whether the query, lower-cased, starts with `select`. Such a query
      has at least six characters and does not start with whitespace. */
  predicate IsSelect(query: string)
    ensures IsSelect(query) ==> |query| >= 6 && !IsTrimmable(query[0])
  {
    StartsWith(ToLower(query), "select")
  }

  datatype Verdict = Accepted(query: string) | Rejected

  /** The gate: the stripped query if it starts with `select` in any
      letter case, and a rejection otherwise. */
  function Sanitize(completion: string): (v: Verdict)
    ensures v.Accepted? ==> v.query == StripTerminator(completion) && IsSelect(v.query)
    ensures v.Rejected? ==> !IsSelect(StripTerminator(completion))
  {
    var query := StripTerminator(completion);
    if IsSelect(query) then Accepted(query) else Rejected
  }

  /** The stripped query is the trimmed completion, less its last character
      exactly when that character is `;`; so it is always a prefix of the
      trimmed completion, and `;;` loses only one terminator. */
  lemma StripTerminatorShape(completion: string)
    ensures var t := Trim(completion); var q := StripTerminator(completion);
      && |q| <= |t| && q == t[..|q|]
      && (EndsWith(t, ";") ==> |q| == |t| - 1)
      && (!EndsWith(t, ";") ==> q == t)
      && (EndsWith(t, ";;") ==> EndsWith(q, ";"))
  {
    var t := Trim(completion);
    var q := StripTerminator(completion);
    if EndsWith(t, ";;") {
      assert t[|t| - 2] == ';';
      assert q[|q| - 1] == t[|t| - 2];
      assert q[|q| - 1..] == ";";
    }
  }

  /** The case-insensitive prefix test, stated letter by letter: each of
      the first six characters is the lower- or upper-case letter of
      `select` in that position. */
  lemma IsSelectIff(query: string)
    ensures IsSelect(query) <==>
      |query| >= 6 && forall i :: 0 <= i < 6 ==> query[i] == "select"[i] || query[i] == "SELECT"[i]
  {
    if |query| >= 6 {
      var low := ToLower(query);
      forall i | 0 <= i < 6
        ensures low[i] == "select"[i] <==> query[i] == "select"[i] || query[i] == "SELECT"[i]
      {
        assert low[i] == LowerChar(query[i]);
      }
      assert low[..6] == "select" <==> forall i :: 0 <= i < 6 ==> low[i] == "select"[i];
    }
  }

  /** A completion with no surrounding whitespace and no trailing `;`
      passes the gate unchanged when it starts with `select` in any letter
      case, and is rejected otherwise. */
  lemma SanitizeBare(completion: string)
    requires completion != [] && !IsTrimmable(completion[0])
    requires !IsTrimmable(completion[|completion| - 1]) && completion[|completion| - 1] != ';'
    ensures Sanitize(completion) == if IsSelect(completion) then Accepted(completion) else Rejected
  {
    TrimUnchanged(completion);
  }

  /** `select` in lower case passes the gate. */
  lemma LowerCaseSelectAccepted()
    ensures Sanitize("select * from products") == Accepted("select * from products")
  {
    SanitizeBare("select * from products");
    IsSelectIff("select * from products");
  }

  /** `SELECT` in upper case passes the gate. */
  lemma UpperCaseSelectAccepted()
    ensures Sanitize("SELECT * FROM products") == Accepted("SELECT * FROM products")
  {
    SanitizeBare("SELECT * FROM products");
    IsSelectIff("SELECT * FROM products");
  }

  /** `Select` in mixed case passes the gate. */
  lemma MixedCaseSelectAccepted()
    ensures Sanitize("Select name From customers") == Accepted("Select name From customers")
  {
    SanitizeBare("Select name From customers");
    IsSelectIff("Select name From customers");
  }

  /** `DELETE` does not pass the gate. */
  lemma DeleteRejected()
    ensures Sanitize("DELETE FROM customers") == Rejected
  {
    SanitizeBare("DELETE FROM customers");
    IsSelectIff("DELETE FROM customers");
  }

  /** Only the start is checked: a second statement after an inner `;` is
      let through, terminator and all. */
  lemma SecondStatementPasses()
    ensures Sanitize("select 1; drop table customers") == Accepted("select 1; drop table customers")
  {
    SanitizeBare("select 1; drop table customers");
    IsSelectIff("select 1; drop table customers");
  }

  /** Trimming a query that starts with `select` only removes trailing
      whitespace, and keeps its first six characters. */
  lemma TrimSelectQuery(q: string)
    requires IsSelect(q)
    ensures Trim(q) == TrimEnd(q) && |Trim(q)| >= 6 && Trim(q)[..6] == q[..6]
  {
    IsSelectIff(q);
    assert !IsTrimmable(q[0]) && !IsTrimmable(q[5]);
    TrimStartSpec(q);
    assert |q| - |TrimStart(q)| == 0;
    assert TrimStart(q) == q;
    TrimEndSpec(q);
    assert |TrimEnd(q)| >= 6;
  }

  /** Stripping a query that starts with `select` leaves one that still
      does, and leaves it unchanged exactly when it ends neither in
      whitespace nor in `;`. */
  lemma StripSelectQuery(q: string)
    requires IsSelect(q)
    ensures IsSelect(StripTerminator(q))
    ensures StripTerminator(q) == q <==> !IsTrimmable(q[|q| - 1]) && !EndsWith(q, ";")
  {
    IsSelectIff(q);
    TrimSelectQuery(q);
    TrimEndSpec(q);
    var t := Trim(q);
    var r := StripTerminator(q);
    StripTerminatorShape(q);
    assert |r| >= 6 by {
      assert t[5] == q[5];
      assert EndsWith(t, ";") ==> t[|t| - 1] == ';';
    }
    assert r[..6] == q[..6];
    IsSelectIff(r);
    if !IsTrimmable(q[|q| - 1]) && !EndsWith(q, ";") {
      TrimUnchanged(q);
    }
    if r == q {
      assert |t| == |q|;
      assert t == q;
    }
  }

  /** An accepted query stays accepted when sanitized again, and comes back
      unchanged exactly when it neither ends in a trimmable character nor
      in `;`. */
  lemma ResanitizeAccepted(completion: string)
    requires Sanitize(completion).Accepted?
    ensures var q := Sanitize(completion).query;
      && Sanitize(q).Accepted?
      && (Sanitize(q) == Sanitize(completion) <==> !IsTrimmable(q[|q| - 1]) && !EndsWith(q, ";"))
  {
    StripSelectQuery(Sanitize(completion).query);
  }

  /** Re-sanitizing is not the identity in general: `select 1 ;` first
      becomes `select 1 ` and only then `select 1`. */
  lemma ResanitizeExample()
    ensures Sanitize("select 1 ;") == Accepted("select 1 ")
    ensures Sanitize("select 1 ") == Accepted("select 1")
  {
    TrimUnchanged("select 1 ;");
    IsSelectIff("select 1 ");
    TrimUnchanged("select 1");
    assert TrimEnd("select 1 ") == TrimEnd("select 1");
    IsSelectIff("select 1");
  }

  // ---------------------------------------------------------------------
  // The /ask handler
  // ---------------------------------------------------------------------

  const CompletionModel: string := "llama3-70b-8192"
  const RejectionMessage: string := "Only safe SELECT queries are allowed"
  const QueryErrorMessage: string := "SQL query error"
  const GenerationErrorMessage: string := "Failed to generate or execute SQL"

  /** A JSON request body with string-valued fields. */
  type Body = map<string, string>

  datatype Message = Message(role: string, content: string)

  /** What is sent to the completion service. */
  datatype CompletionRequest = CompletionRequest(model: string, messages: seq<Message>)

  /** What the completion service answers: the first choice's text, or a
      thrown error (a failed call, or a reply with no usable choice). */
  datatype OracleOutcome = Completion(content: string) | OracleFailure(message: string)

  /** What the database answers to the query it is given. */
  datatype QueryOutcome = ResultRows(rows: seq<Row>) | DbFailure(message: string)

  /** The JSON payload of a response. */
  datatype Payload =
    | SqlAndResults(sql: string, results: seq<Row>)
    | ErrorOnly(error: string)
    | ErrorWithDetails(error: string, details: string)

  datatype Response = Response(status: int, payload: Payload)

  /** One request's observable behaviour: the completion request, the
      string handed to the database (`None` when it is never called), and
      the response. */
  datatype Exchange = Exchange(request: CompletionRequest, executed: Option<string>, response: Response)

  /** The text the prompt shows for the body's `question` field; a body
      without that field shows the word `undefined`. */
  function QuestionText(body: Body): string {
    if "question" in body then body["question"] else "undefined"
  }

  /** The responses the handler produces: 200 exactly with the SQL and its
      rows, otherwise 400 or 500 with an error payload. */
  predicate WellFormed(r: Response) {
    && (r.status == 200 || r.status == 400 || r.status == 500)
    && (r.status == 200 <==> r.payload.SqlAndResults?)
  }

  /** The `/ask` route, given the completion service's and the database's
      answers. */
  function HandleAsk(body: Body, oracle: OracleOutcome, db: QueryOutcome): (x: Exchange)
    ensures x.request == CompletionRequest(CompletionModel, [Message("user", BuildPrompt(QuestionText(body)))])
    ensures WellFormed(x.response)
    ensures x.executed.Some? ==> oracle.Completion? && Sanitize(oracle.content) == Accepted(x.executed.value)
    ensures x.executed.Some? ==> IsSelect(x.executed.value)
    ensures x.response.payload.SqlAndResults? ==> x.executed == Some(x.response.payload.sql)
  {
    var request := CompletionRequest(CompletionModel, [Message("user", BuildPrompt(QuestionText(body)))]);
    match oracle
    case OracleFailure(message) =>
      Exchange(request, None, Response(500, ErrorWithDetails(GenerationErrorMessage, message)))
    case Completion(content) =>
      match Sanitize(content)
      case Rejected =>
        Exchange(request, None, Response(400, ErrorOnly(RejectionMessage)))
      case Accepted(query) =>
        match db
        case DbFailure(message) =>
          Exchange(request, Some(query), Response(500, ErrorWithDetails(QueryErrorMessage, message)))
        case ResultRows(rows) =>
          Exchange(request, Some(query), Response(200, SqlAndResults(query, rows)))
  }

  /** A completion the gate rejects gives 400 with the fixed message, the
      database is never called, and what it would have answered does not
      matter. */
  lemma RejectionNeverExecutes(body: Body, content: string, db1: QueryOutcome, db2: QueryOutcome)
    requires Sanitize(content).Rejected?
    ensures HandleAsk(body, Completion(content), db1).executed == None
    ensures HandleAsk(body, Completion(content), db1).response == Response(400, ErrorOnly(RejectionMessage))
    ensures HandleAsk(body, Completion(content), db1) == HandleAsk(body, Completion(content), db2)
  {
  }

  /** A failing completion call gives 500 with the thrown message as
      details, and the database is never called. */
  lemma OracleFailureResponds(body: Body, message: string, db: QueryOutcome)
    ensures HandleAsk(body, OracleFailure(message), db).executed == None
    ensures HandleAsk(body, OracleFailure(message), db).response
      == Response(500, ErrorWithDetails(GenerationErrorMessage, message))
  {
  }

  /** An accepted query is handed to the database as it is; a database error
      gives 500 with the driver's message as details, and rows give 200
      with exactly the executed string as `sql` and the rows as `results`. */
  lemma AcceptedQueryOutcomes(body: Body, content: string, db: QueryOutcome)
    requires Sanitize(content).Accepted?
    ensures var x := HandleAsk(body, Completion(content), db);
      && x.executed == Some(StripTerminator(content))
      && (db.DbFailure? ==> x.response == Response(500, ErrorWithDetails(QueryErrorMessage, db.message)))
      && (db.ResultRows? ==> x.response == Response(200, SqlAndResults(x.executed.value, db.rows)))
  {
  }

  /** The prompt, and hence the completion request, depends on the body only
      through its `question` field. */
  lemma PromptDependsOnQuestionOnly(b1: Body, b2: Body, oracle: OracleOutcome, db: QueryOutcome)
    requires QuestionText(b1) == QuestionText(b2)
    ensures HandleAsk(b1, oracle, db) == HandleAsk(b2, oracle, db)
  {
  }

  /** The prompt shows the body's `question` field as it is, and the word
      `undefined` when the body has no such field. */
  lemma QuestionFieldInPrompt(body: Body, oracle: OracleOutcome, db: QueryOutcome)
    ensures var prompt := HandleAsk(body, oracle, db).request.messages[0].content;
      && ("question" in body ==> prompt == BuildPrompt(body["question"]))
      && ("question" !in body ==> prompt == BuildPrompt("undefined"))
  {
  }

  /** A completion ending in `;` is run without it. */
  lemma CountCustomersScenario(body: Body, rows: seq<Row>)
    ensures var query := "SELECT COUNT(*) FROM customers" + " WHERE region = 'West'";
      var x := HandleAsk(body, Completion(query + ";"), ResultRows(rows));
      && x.executed == Some(query)
      && x.response == Response(200, SqlAndResults(query, rows))
  {
    var query := "SELECT COUNT(*) FROM customers" + " WHERE region = 'West'";
    var c := query + ";";
    assert c[..|query|] == query && c[|query|..] == ";";
    assert query[..6] == "SELECT";
    assert c[0] == query[0] && c[|c| - 1] == ';';
    TrimUnchanged(c);
    assert c[..|c| - 1] == query;
    assert query[..6] == "SELECT";
    IsSelectIff(query);
  }

  /** A `DELETE` completion is refused before the database is reached. */
  lemma DeleteScenario(body: Body, db: QueryOutcome)
    ensures HandleAsk(body, Completion("DELETE FROM customers"), db).executed == None
    ensures HandleAsk(body, Completion("DELETE FROM customers"), db).response.status == 400
  {
    DeleteRejected();
  }
}
