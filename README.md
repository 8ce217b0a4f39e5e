# AI Data Agent: the SQL gate and the result-shaping rules

This project models the two pieces of logic in a small natural-language-to-SQL
application and proves properties about them.

- **Backend, the `POST /ask` handler.** It reads the `question` field of the
  request body and builds a fixed prompt from it. The prompt lists the four
  allowed tables and their columns. The handler sends the prompt to a text
  completion service. It then passes the completion through a three-step gate:
  trim the surrounding whitespace, drop one trailing `;`, and reject the text
  unless its lower-cased form starts with `select`. An accepted query goes to
  the database unchanged. Each outcome maps to one response: 400 for a
  rejection, 500 for a database error or a failed completion call, and 200
  with `{sql, results}` on success.
- **Frontend, the single-page form.** It posts the question and keeps four
  view-state cells: question, answer, sql and error. It draws a table whose
  columns are the first row's keys. It draws a line chart when the first row
  has a `price` or a `quantity` column.

Modules:

- `Text` (`text.dfy`): the JavaScript string operations the gate uses. `trim`
  removes the full ECMAScript WhiteSpace and LineTerminator set.
  `toLowerCase` is modelled for ASCII letters only. Also `startsWith` and
  `endsWith`.
- `Rows` (`rows.dfy`): a result row, written as a list of key/value fields in
  `Object.keys` order, with distinct keys. Also `Object.keys`,
  `hasOwnProperty` and `row[k]` on such a row.
- `Server` (`server.dfy`): the prompt template, the gate (`Sanitize`, with a
  `Verdict` of `Accepted(query) | Rejected`) and the handler. `HandleAsk` takes
  the request body, the completion service's answer and the database's answer.
  It returns an `Exchange` with three parts: the completion request, the
  string handed to the database (`None` when the database is never called),
  and the HTTP response.
- `Client` (`client.dfy`): the table and chart decisions, the reply the form
  gets from axios, and the class `AskForm`, which holds the four state cells.
  Its methods are `Edit`, `Submit`, `Receive` and `AskQuestion`.
- `Wrappers` (`wrappers.dfy`): `Option`, used for JavaScript's
  `null`/`undefined`.

The code trims first and strips the terminator second. So `select 1 ;` becomes
`select 1 ` with its trailing space kept.

## Model

| member | source | states |
|---|---|---|
| `Text.IsTrimmable` | server/index.js:66 | The characters `trim` removes (ECMAScript WhiteSpace and LineTerminator) include no printable ASCII character, so letters and `;` are never trimmed. |
| `Text.StartsWith` | server/index.js:74 | `startsWith(p)` holds iff `p` is no longer than the text and matches it character by character from the start. |
| `Text.EndsWith` | server/index.js:69 | `endsWith(p)` holds iff `p` is no longer than the text and matches the text's last characters in order. |
| `Text.Trim` | server/index.js:66 | The trimmed text is no longer than the input. It is empty or starts and ends with a non-whitespace character. |
| `Text.TrimStartSpec` | server/index.js:66 | Leading trim returns the suffix that starts at the first non-whitespace character. Everything it drops is whitespace. |
| `Text.TrimEndSpec` | server/index.js:66 | Trailing trim returns the prefix that ends at the last non-whitespace character. Everything it drops is whitespace. |
| `Text.TrimIsSlice` | server/index.js:66 | `trim` returns exactly the slice that has non-whitespace at both ends and only whitespace outside it. |
| `Text.TrimIdempotent` | server/index.js:66 | Trimming a trimmed string changes nothing. |
| `Text.TrimUnchanged` | server/index.js:66 | A string that neither starts nor ends with whitespace is its own trim. |
| `Text.LowerChar` | server/index.js:74 | Lower-casing maps `A`..`Z` to `a`..`z` and leaves every other character alone. |
| `Text.ToLower` | server/index.js:74 | Lower-casing keeps the length and lower-cases each character in place. |
| `Rows.Keys` | client/src/App.js:35 | `Object.keys` lists the row's keys, one per field, in field order. |
| `Rows.HasKey` | client/src/App.js:57-64 | `hasOwnProperty(k)` holds iff some field of the row carries key `k`. |
| `Rows.Lookup` | client/src/App.js:46 | `row[k]` is defined exactly when `row.hasOwnProperty(k)`. |
| `Rows.LookupAt` | client/src/App.js:46 | In a row with distinct keys, `row[k]` for the i-th key is the i-th value. |
| `Rows.LookupDropFront` | client/src/App.js:46 | Fields placed in front of a row that do not carry key `k` leave `row[k]` unchanged. |
| `Rows.LookupInserted` | client/src/App.js:46 | Fields inserted anywhere in a row that do not carry key `k` leave `row[k]` unchanged. |
| `Server.BuildPrompt` | server/index.js:45-58 | The prompt starts with the fixed head (role, four tables, output rules, `Question: "`) and ends with the closing `"`. Its length is theirs plus the question's. |
| `Server.QuestionFieldInPrompt` | server/index.js:43-57 | The prompt shows the body's `question` field as it is. A body without that field gives the prompt for the word `undefined`. |
| `Server.PromptEmbedsQuestion` | server/index.js:45-58 | The question sits verbatim, unescaped, between the fixed head and the closing `"`. It can be read back out of the prompt. |
| `Server.PromptInjective` | server/index.js:45-58 | Different questions give different prompts. |
| `Server.PromptDependsOnQuestionOnly` | server/index.js:43-58 | Two bodies with the same `question` field give the same exchange. |
| `Server.StripTerminator` | server/index.js:66-71 | The stripped query is a prefix of the trimmed completion and at most one character shorter. |
| `Server.IsSelect` | server/index.js:74 | Text that passes the lower-cased `select` test has at least six characters and does not start with whitespace. |
| `Server.Sanitize` | server/index.js:66-76 | An accepted query is the stripped completion and starts with `select` in some letter case. A rejection happens exactly when the stripped completion does not. |
| `Server.StripTerminatorShape` | server/index.js:66-71 | The stripped query is a prefix of the trimmed completion. It is one character shorter exactly when the trimmed text ends in `;`, and otherwise equal to it. A trailing `;;` leaves one `;`. |
| `Server.IsSelectIff` | server/index.js:74 | The lower-cased prefix test holds iff each of the first six characters is the lower- or upper-case letter of `select` in that position. |
| `Server.SanitizeBare` | server/index.js:66-76 | Text with no surrounding whitespace and no trailing `;` is accepted unchanged if it starts with `select` in any case, and rejected otherwise. |
| `Server.LowerCaseSelectAccepted` | server/index.js:74 | `select ...` passes the gate. |
| `Server.UpperCaseSelectAccepted` | server/index.js:74 | `SELECT ...` passes the gate. |
| `Server.MixedCaseSelectAccepted` | server/index.js:74 | `Select ...` passes the gate. |
| `Server.DeleteRejected` | server/index.js:74 | `DELETE FROM customers` is rejected. |
| `Server.SecondStatementPasses` | server/index.js:66-76 | The gate checks only the start, so `select 1; drop table customers` is accepted as it is. |
| `Server.TrimSelectQuery` | server/index.js:66-74 | Trimming a query that starts with `select` removes only trailing whitespace and keeps the first six characters. |
| `Server.StripSelectQuery` | server/index.js:66-74 | Stripping a query that starts with `select` leaves one that still does. The query comes back unchanged iff it ends neither in whitespace nor in `;`. |
| `Server.ResanitizeAccepted` | server/index.js:66-74 | An accepted query stays accepted when sanitized again. It comes back unchanged iff it ends neither in whitespace nor in `;`. |
| `Server.ResanitizeExample` | server/index.js:66-74 | `select 1 ;` becomes `select 1 `, and only a second pass gives `select 1`. |
| `Server.HandleAsk` | server/index.js:42-91 | The completion request carries the fixed model and one user message with the prompt. The database sees only strings the gate accepted, and each one starts with `select`. Status 200 comes exactly with `{sql, results}`, and its `sql` is the executed string. |
| `Server.RejectionNeverExecutes` | server/index.js:74-79 | A rejected completion gives 400 with `Only safe SELECT queries are allowed`. The database is not called, and its answer cannot change the exchange. |
| `Server.OracleFailureResponds` | server/index.js:60-90 | A failed completion call gives 500 with `Failed to generate or execute SQL` and the thrown message as details. The database is not called. |
| `Server.AcceptedQueryOutcomes` | server/index.js:79-86 | The stripped completion is handed to the database. A database error gives 500 with `SQL query error` and the driver's message. Rows give 200 with the executed string and the rows. |
| `Server.CountCustomersScenario` | server/index.js:66-86 | A `SELECT COUNT(*) ...;` completion is executed and echoed without its `;`. |
| `Server.DeleteScenario` | server/index.js:74-76 | A `DELETE` completion gets 400, and the database is not called. |
| `Client.RenderRow` | client/src/App.js:46 | A body row has one cell per header, holding `row[h]` in header order. |
| `Client.RenderTable` | client/src/App.js:32-52 | The placeholder appears iff the answer is null or empty. Otherwise the headers are the first row's keys in order, there is one body row per result row, and each body row has one cell per header. |
| `Client.TableCells` | client/src/App.js:44-46 | Each cell holds its row's value under its header. A missing key gives an empty cell. |
| `Client.FirstRowShowsItsValues` | client/src/App.js:35-46 | The first row's j-th cell is its own j-th value. |
| `Client.ExtraKeysDropped` | client/src/App.js:44-46 | Fields whose keys are not headers change no cell, wherever they sit in the row's key order. |
| `Client.RenderChart` | client/src/App.js:54-64 | A chart is drawn iff the answer is non-empty and its first row has `price` or `quantity`. The chart's X-axis key is a key of that first row. |
| `Client.ChartLines` | client/src/App.js:57-70 | Lines are drawn for exactly those of `price` and `quantity` that the first row has, each once, `price` first. |
| `Client.ChartXAxis` | client/src/App.js:63-64 | The X axis is `id` when the first row has it. Otherwise it is the first row's first key. |
| `Client.EmptyAnswerRendersPlaceholder` | client/src/App.js:32-55 | A null or empty answer gives the "No data returned." placeholder and no chart. |
| `Client.PricedRowsScenario` | client/src/App.js:32-78 | Two `{id, price}` rows give a two-row `id, price` table and one `price` line over `id`. |
| `Client.RequestBodyAsWritten` | client/src/App.js:19-22 | The client posts `{ query: question }` and nothing else. |
| `Client.AsWrittenQuestionIsLost` | client/src/App.js:19-22 | With that body, any two questions give identical exchanges, and the prompt holds the text `undefined`. |
| `Client.RequestBody` | client/src/App.js:19-22 | The corrected body is `{ question: question }`. |
| `Client.QuestionReachesPrompt` | server/index.js:43-58 | With the corrected body, the server's prompt is built from the user's question, and the question can be read back out of it. |
| `Client.ReplyOf` | client/src/App.js:18-27 | The post resolves exactly on a 2xx response, with that response's `sql` and `results`. Otherwise it rejects with the response's `error` field, or with none if no response arrived. |
| `Client.ErrorText` | client/src/App.js:27 | The error shown is the server's message when it is a non-empty string, and `Failed to get answer` otherwise. It is never empty. |
| `Client.ServerErrorsReachUser` | client/src/App.js:26-27 | Every non-200 response shows one of the server's three fixed error messages. The database details are not shown. |
| `Client.AskForm.constructor` | client/src/App.js:8-11 | The form starts with an empty question, no answer, empty SQL and no error. |
| `Client.AskForm.Edit` | client/src/App.js:88 | Editing sets the question and leaves the other three cells alone. |
| `Client.AskForm.Submit` | client/src/App.js:13-22 | Submitting first clears error, answer and SQL, then posts the question under the field name `query`, as the client does. |
| `Client.AskForm.Receive` | client/src/App.js:24-27 | On success it sets the SQL and the answer from the reply. On failure it sets only the error text. |
| `Client.AskForm.AskQuestion` | client/src/App.js:13-29 | Posts `{ query: question }`. After one submission, success shows the SQL and rows with no error. Failure shows only the error text, and the answer and SQL stay cleared. An error never shows beside a result. |

## Findings

| source | as written | input that shows it | evidently intended | confidence | as-written member | corrected member |
|---|---|---|---|---|---|---|
| client/src/App.js:21 | The client posts `{ query: question }`, but the handler reads `req.body.question` (server/index.js:43). | Any question, such as `How many customers are there?`: the prompt ends with `Question: "undefined"`. | The client posts the field the server reads, so the user's question reaches the prompt. | high; not executed | `Client.AsWrittenQuestionIsLost` | `Client.QuestionReachesPrompt` |

`AskForm.Submit` posts the body as written. `Client.RequestBody` is the corrected body, and `Client.QuestionReachesPrompt` proves what it achieves.

## Left out

- The completion service call (server/index.js:61-64) and `db.query` (server/index.js:79) are foreign services. They appear only as input values: `OracleOutcome` (first-choice text, or a thrown error, which also covers a reply with no choices or no content) and `QueryOutcome` (rows, or a driver error).
- Express setup, CORS, JSON parsing, `listen` and the `GET /` liveness route are HTTP plumbing.
- The startup check for environment variables and the MySQL connection setup are process configuration. The shared connection under concurrent requests is a concurrency concern.
- Console logging is left out.
- JSX, recharts, axios's transport and React's `useState` machinery are left out. So is the page layout's decision to show the error line, the SQL block and the results section (client/src/App.js:80-111). Only the data decisions are modelled.
- `Text.ToLower` folds ASCII letters only. Full Unicode lower-casing can change characters outside ASCII, and its only multi-character mapping (U+0130) yields a string that starts with `i`. No non-ASCII character lower-cases to one of `s`, `e`, `l`, `c`, `t`, so the `select` test gives the same answer. This is argued, not proved.
- `Text.IsTrimmable` lists the Unicode space separators (category Zs) explicitly, as they stand in current Unicode versions.
- `Server.Body` models request bodies with string-valued fields only. A non-string `question` (a number, `null`, an object) is printed by the template through JavaScript's string conversion, and that conversion is not modelled. A missing field prints as `undefined`.
- `Rows.Row` is the row as `Object.keys` enumerates it. JavaScript lists integer-like keys (such as a column named `1`) first, in numeric order, whatever the column order. The model takes the enumerated order as given. A header that names an inherited property (`toString`) on a row lacking it is not modelled.
- `Rows.Value` covers null, numbers and strings. Dates and binary columns are not modelled.
- `Client.AskForm.Receive` is modelled for a reply that answers the latest `Submit`. Two overlapping submissions, where an older reply lands after a newer `Submit`, are not modelled. `AskForm.Valid` holds only for one submission at a time.
