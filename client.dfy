/**
  The single-page client: the decisions behind the results table and the
  line chart, and the `askQuestion` handler's updates to the form's view
  state. Rendering itself is replaced by the data it would draw.
*/
module Client {
  import opened Wrappers
  import opened Rows
  import Server

  // ---------------------------------------------------------------------
  // Results table
  // ---------------------------------------------------------------------

  /** The "No data returned." placeholder, or a table with its header
      cells and one list of cells per body row; a cell holds `row[h]`
      (`None` is `undefined`, drawn as an empty cell). */
  datatype TableView = NoData | Table(headers: seq<string>, body: seq<seq<Option<Value>>>)

  /** One body row: the row's value under each header, in header order. */
  function RenderRow(headers: seq<string>, row: Row): (cells: seq<Option<Value>>)
    ensures |cells| == |headers|
    ensures forall j :: 0 <= j < |headers| ==> cells[j] == Lookup(row, headers[j])
  {
    seq(|headers|, j requires 0 <= j < |headers| => Lookup(row, headers[j]))
  }

  /** The results table: headers from the first row's keys, one body row
      per result row. */
  function RenderTable(answer: Option<seq<Row>>): (t: TableView)
    ensures t.NoData? <==> answer.None? || answer.value == []
    ensures t.Table? ==> t.headers == Keys(answer.value[0])
    ensures t.Table? ==> |t.body| == |answer.value|
    ensures t.Table? ==> forall i :: 0 <= i < |t.body| ==> |t.body[i]| == |t.headers|
  {
    if answer.None? || answer.value == [] then NoData
    else
      var headers := Keys(answer.value[0]);
      Table(headers, seq(|answer.value|, i requires 0 <= i < |answer.value| => RenderRow(headers, answer.value[i])))
  }

  /** Every cell holds the value of its row under its column's header, and
      a row without that key gives an empty cell. */
  lemma TableCells(answer: seq<Row>, i: nat, j: nat)
    requires answer != [] && i < |answer| && j < |Keys(answer[0])|
    ensures var t := RenderTable(Some(answer));
      && t.body[i][j] == Lookup(answer[i], t.headers[j])
      && (!HasKey(answer[i], t.headers[j]) ==> t.body[i][j] == None)
  {
  }

  /** The first row is drawn as it is: its j-th cell is its j-th value. */
  lemma FirstRowShowsItsValues(answer: seq<Row>, j: nat)
    requires answer != [] && DistinctKeys(answer[0]) && j < |answer[0]|
    ensures RenderTable(Some(answer)).body[0][j] == Some(answer[0][j].value)
  {
    LookupAt(answer[0], j);
  }

  /** Keys a row has beyond the headers are dropped: wherever they sit in
      the row's key order, they change none of its cells. */
  lemma {:induction false} ExtraKeysDropped(headers: seq<string>, pre: Row, extra: Row, post: Row)
    requires forall k :: k in Keys(extra) ==> k !in headers
    ensures RenderRow(headers, pre + extra + post) == RenderRow(headers, pre + post)
  {
    forall j | 0 <= j < |headers|
      ensures Lookup(pre + extra + post, headers[j]) == Lookup(pre + post, headers[j])
    {
      LookupInserted(pre, extra, post, headers[j]);
    }
  }

  // ---------------------------------------------------------------------
  // Line chart
  // ---------------------------------------------------------------------

  /** No chart, or a line chart over the rows with the keys it draws a
      line for and the key of its X axis. */
  datatype ChartView = NoChart | LineChart(data: seq<Row>, lines: seq<string>, xKey: string)

  /** The line chart: drawn when the first row has `price` or `quantity`,
      with a line for each of them it has, over `id` or the first key. */
  function RenderChart(answer: Option<seq<Row>>): (c: ChartView)
    ensures c.LineChart? <==>
      answer.Some? && answer.value != [] && (HasKey(answer.value[0], "price") || HasKey(answer.value[0], "quantity"))
    ensures c.LineChart? ==> c.data == answer.value && HasKey(answer.value[0], c.xKey)
  {
    if answer.None? || answer.value == [] then NoChart
    else
      var first := answer.value[0];
      var hasPrice := HasKey(first, "price");
      var hasQuantity := HasKey(first, "quantity");
      if !hasPrice && !hasQuantity then NoChart
      else
        var xKey := if HasKey(first, "id") then "id" else Keys(first)[0];
        LineChart(answer.value,
                  (if hasPrice then ["price"] else []) + (if hasQuantity then ["quantity"] else []),
                  xKey)
  }

  /** Lines are drawn for exactly those of `price` and `quantity` that the
      first row has, once each, `price` first. */
  lemma ChartLines(answer: seq<Row>)
    requires RenderChart(Some(answer)).LineChart?
    ensures var c := RenderChart(Some(answer));
      && (forall k :: k in c.lines <==> (k == "price" || k == "quantity") && HasKey(answer[0], k))
      && 1 <= |c.lines| <= 2
      && (HasKey(answer[0], "price") ==> c.lines[0] == "price")
      && (|c.lines| == 2 ==> c.lines[0] != c.lines[1])
  {
  }

  /** The X axis is `id` when the first row has it, and otherwise the first
      row's first key. */
  lemma ChartXAxis(answer: seq<Row>)
    requires RenderChart(Some(answer)).LineChart?
    ensures var c := RenderChart(Some(answer));
      && (HasKey(answer[0], "id") ==> c.xKey == "id")
      && (!HasKey(answer[0], "id") ==> answer[0] != [] && c.xKey == answer[0][0].key)
  {
  }

  /** A missing or empty answer gives the placeholder and no chart. */
  lemma EmptyAnswerRendersPlaceholder(answer: Option<seq<Row>>)
    requires answer.None? || answer.value == []
    ensures RenderTable(answer) == NoData && RenderChart(answer) == NoChart
  {
  }

  /** Two priced rows give a two-row `id, price` table and a chart with one
      `price` line over `id`. */
  lemma PricedRowsScenario()
    ensures var rows := [[Field("id", Number(1.0)), Field("price", Number(9.5))],
                         [Field("id", Number(2.0)), Field("price", Number(4.0))]];
      && RenderTable(Some(rows)) == Table(["id", "price"], [[Some(Number(1.0)), Some(Number(9.5))],
                                                            [Some(Number(2.0)), Some(Number(4.0))]])
      && RenderChart(Some(rows)) == LineChart(rows, ["price"], "id")
  {
    var rows := [[Field("id", Number(1.0)), Field("price", Number(9.5))],
                 [Field("id", Number(2.0)), Field("price", Number(4.0))]];
    assert Keys(rows[0]) == ["id", "price"];
    assert HasKey(rows[0], "quantity") == false;
    var headers := ["id", "price"];
    assert RenderRow(headers, rows[0]) == [Some(Number(1.0)), Some(Number(9.5))] by {
      LookupAt(rows[0], 0);
      LookupAt(rows[0], 1);
    }
    assert RenderRow(headers, rows[1]) == [Some(Number(2.0)), Some(Number(4.0))] by {
      LookupAt(rows[1], 0);
      LookupAt(rows[1], 1);
    }
  }

  // ---------------------------------------------------------------------
  // The request body
  // ---------------------------------------------------------------------

  /** The body `askQuestion` posts as written: `{ query: question }`. */
  function RequestBodyAsWritten(question: string): (body: Server.Body)
    ensures body.Keys == {"query"} && body["query"] == question
  {
    map["query" := question]
  }

  /** With the body as written, the server finds no `question` field: every
      question yields the prompt for the text `undefined`, so two different
      questions produce identical exchanges. */
  lemma AsWrittenQuestionIsLost(q1: string, q2: string, oracle: Server.OracleOutcome, db: Server.QueryOutcome)
    ensures var x := Server.HandleAsk(RequestBodyAsWritten(q1), oracle, db);
      && x == Server.HandleAsk(RequestBodyAsWritten(q2), oracle, db)
      && x.request.messages[0].content == Server.BuildPrompt("undefined")
  {
    Server.PromptDependsOnQuestionOnly(RequestBodyAsWritten(q1), RequestBodyAsWritten(q2), oracle, db);
  }

  /** The body under the field name the server reads: `{ question: question }`. */
  function RequestBody(question: string): (body: Server.Body)
    ensures body.Keys == {"question"} && body["question"] == question
  {
    map["question" := question]
  }

  /** With the corrected body, the server's prompt is built from the user's
      question, which can be read back out of it. */
  lemma QuestionReachesPrompt(question: string, oracle: Server.OracleOutcome, db: Server.QueryOutcome)
    ensures var prompt := Server.HandleAsk(RequestBody(question), oracle, db).request.messages[0].content;
      && prompt == Server.BuildPrompt(question)
      && |Server.PromptHead| + |Server.PromptTail| <= |prompt|
      && Server.QuestionOfPrompt(prompt) == question
  {
    Server.PromptEmbedsQuestion(question);
  }

  // ---------------------------------------------------------------------
  // The reply and the form's state
  // ---------------------------------------------------------------------

  const FallbackError: string := "Failed to get answer"

  /** What `axios.post` yields: the resolved `data`, or a rejection whose
      error payload may carry no `error` field, or may be missing. */
  datatype Reply = Answered(sql: string, results: seq<Row>) | Failed(error: Option<string>)

  /** The reply for a server response (`None`: no response arrived). axios
      resolves on a 2xx status and rejects otherwise. */
  function ReplyOf(response: Option<Server.Response>): (r: Reply)
    requires response.Some? ==> Server.WellFormed(response.value)
    ensures r.Answered? <==> response.Some? && 200 <= response.value.status < 300
    ensures r.Answered? ==> response.value.payload == Server.SqlAndResults(r.sql, r.results)
    ensures r.Failed? && response.Some? ==> r.error == Some(response.value.payload.error)
    ensures response.None? ==> r == Failed(None)
  {
    if response.None? then Failed(None)
    else
      match response.value.payload
      case SqlAndResults(sql, results) => Answered(sql, results)
      case ErrorOnly(error) => Failed(Some(error))
      case ErrorWithDetails(error, _) => Failed(Some(error))
  }

  /** The error message shown: the server's message when it is a non-empty
      string, the fallback otherwise; never empty, so the error line is
      always shown. */
  function ErrorText(error: Option<string>): (msg: string)
    ensures msg != ""
    ensures error.Some? && error.value != "" ==> msg == error.value
    ensures error.None? || error.value == "" ==> msg == FallbackError
  {
    if error.Some? && error.value != "" then error.value else FallbackError
  }

  /** Whatever the server refuses, the user reads its own error text, and
      the database driver's details are not shown. */
  lemma ServerErrorsReachUser(body: Server.Body, oracle: Server.OracleOutcome, db: Server.QueryOutcome)
    requires Server.HandleAsk(body, oracle, db).response.status != 200
    ensures var r := ReplyOf(Some(Server.HandleAsk(body, oracle, db).response));
      && r.Failed?
      && ErrorText(r.error) in {Server.RejectionMessage, Server.QueryErrorMessage, Server.GenerationErrorMessage}
  {
  }

  /** The four view-state cells of the form. */
  class AskForm {
    var question: string
    var answer: Option<seq<Row>>
    var sql: string
    var error: Option<string>

    /** An error is never shown beside a result or its SQL. */
    ghost predicate Valid()
      reads this
    {
      error.Some? ==> answer.None? && sql == ""
    }

    /** The initial state of the four `useState` cells. */
    constructor ()
      ensures Valid()
      ensures question == "" && answer == None && sql == "" && error == None
    {
      question, answer, sql, error := "", None, "", None;
    }

    /** The text area's `onChange`. */
    method Edit(text: string)
      requires Valid()
      modifies this
      ensures Valid()
      ensures question == text
      ensures answer == old(answer) && sql == old(sql) && error == old(error)
    {
      question := text;
    }

    /** The synchronous part of `askQuestion`: clear error, answer and sql,
        and produce the body to post, under the field name `query`. */
    method Submit() returns (body: Server.Body)
      modifies this
      ensures Valid()
      ensures error == None && answer == None && sql == ""
      ensures question == old(question)
      ensures body == RequestBodyAsWritten(question)
    {
      error := None;
      answer := None;
      sql := "";
      body := RequestBodyAsWritten(question);
    }

    /** The part of `askQuestion` after the post settles. */
    method Receive(reply: Reply)
      modifies this
      ensures question == old(question)
      ensures reply.Answered? ==> sql == reply.sql && answer == Some(reply.results) && error == old(error)
      ensures reply.Failed? ==> error == Some(ErrorText(reply.error)) && answer == old(answer) && sql == old(sql)
    {
      match reply
      case Answered(s, results) =>
        sql := s;
        answer := Some(results);
      case Failed(e) =>
        error := Some(ErrorText(e));
    }

    /** `askQuestion`, for one submission that is answered by `reply`:
        success shows the SQL and rows with no error; failure shows only
        the error text, the answer and SQL staying cleared. */
    method AskQuestion(reply: Reply) returns (body: Server.Body)
      modifies this
      ensures Valid()
      ensures question == old(question) && body == RequestBodyAsWritten(question)
      ensures reply.Answered? ==> sql == reply.sql && answer == Some(reply.results) && error == None
      ensures reply.Failed? ==> error == Some(ErrorText(reply.error)) && answer == None && sql == ""
    {
      body := Submit();
      Receive(reply);
    }
  }
}
