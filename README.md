# homework_bot: a Dafny model of the polling core

The bot polls the Yandex Practicum homework-status API, reports a changed
homework status to a Telegram chat, and reports its own failures to the same
chat without repeating an error it has just reported. This project models
its decision logic (`homework.py`) and proves what that logic promises.

- `decimal.dfy` (`Decimal`): Python's `str(int)` and its inverse, used for
  the status code in the "bad status" error text.
- `pyjson.dfy` (`PyJson`): the decoded JSON answer as Python sees it (None,
  bool, int, str, list, dict) with truthiness, `type()` names and `str()`.
- `exceptions.dfy` (`Exceptions`): the exception classes of `exeptions.py`
  and the Python built-ins the code can raise, as values; `Result` stands for
  "returns or raises".
- `homework.dfy` (`Homework`): `HOMEWORK_VERDICTS`, `check_tokens` (a loop
  over the three credentials), `send_message` (an outcome turned into a
  boolean), `get_api_answer` past the request, `check_response`, and
  `parse_status` with Python's `in` and `[]` semantics on any JSON value.
- `watch_loop.dfy` (`WatchLoop`): one iteration of `main`'s loop as the
  function `Cycle` over the state `(timestamp, current_error_message)` and
  what the outside world did; the class `Watcher` whose `Step` method
  performs it in place; `RunBot`, which is `main` over a finite list of
  iterations.
- `loop_properties.dfy` (`LoopProperties`): the properties of the loop,
  per iteration and over runs, and concrete iterations.

Behaviour the model follows from the code, where a plain reading of the
bot's purpose might expect something else:

- The cursor takes whatever truthy value `current_date` holds. Nothing
  checks that it is an integer or that it does not go backwards
  (`LoopProperties.CursorTakesAnyCurrentDate`).
- In the error branch `current_error_message` is set to the new report
  whether or not Telegram accepted it.
- A missing `homeworks` key raises `AttributeError`, because the code names
  `exeptions.ApiResponseException` and the module defines
  `APIResponseException`.
- `EmptyCurrentDateException` carries the previous error message as its
  text. Each such report is therefore longer than the last one and is never
  suppressed (`LoopProperties.MissingCurrentDateIsAlwaysReported`).
- The report template is `Изменился статус проверки работы "<name>". <verdict>`.

## Model

| member | source | states |
|---|---|---|
| `Homework.CheckTokens` | homework.py:33-53 | raises `TokensException` iff at least one of the three credentials is `None` (an empty string passes); every credential is visited and each missing name is logged, in dict order |
| `Homework.MissingNamesMembership` | homework.py:41-48 | with distinct names, a name is logged iff its value is `None` |
| `Homework.SendMessage` | homework.py:56-72 | never raises; returns true iff Telegram delivered the message (ApiException and any other exception give false) |
| `Homework.GetApiAnswer` | homework.py:88-103 | succeeds iff the request went through, the status is 200 and the body decodes, returning that JSON; a transport failure or another status gives `APIAnswerException`, whose text for a bad status is `Код ответа API <code>` |
| `Homework.StatusCodeTextsDistinct` | homework.py:100-102 | different status codes give different error texts |
| `Decimal.IntRoundTrip` | homework.py:101 | the decimal rendering of a status code parses back to the code |
| `Decimal.IntToStringInjective` | homework.py:101 | different integers render to different texts |
| `Homework.CheckResponse` | homework.py:106-121 | succeeds iff the answer is a dict holding a list under `homeworks`, and then returns that list unchanged (empty included); otherwise TypeError for a non-dict, AttributeError for a missing key, TypeError for a non-list, in that order |
| `Homework.IsKnownStatus` | homework.py:132 | a status is accepted iff it is one of the keys of `HOMEWORK_VERDICTS` |
| `Homework.ParseStatus` | homework.py:124-137 | succeeds iff the record is a dict with `homework_name` and a `status` that is a verdict key; the result is the fixed template with the name and the verdict inserted verbatim; failures are `ParseStatusException` or `TypeError` |
| `Homework.ParseStatusFailsOnDict` | homework.py:126-134 | on a dict record, failure iff name absent, status absent, or status not a verdict key; a missing field gives the `ParseStatusException` with the fixed text |
| `Homework.VerdictsDistinct` | homework.py:26-30 | the three verdict sentences differ |
| `Homework.RenderedTextIdentifiesStatus` | homework.py:135-137 | for one homework name, different statuses render different texts |
| `WatchLoop.Watcher.constructor` | homework.py:144-145 | the loop starts with the cursor at the given current time and no error reported |
| `WatchLoop.Watcher.Step` | homework.py:146-168 | one iteration in place: the new state and the texts sent are those of `Cycle` on the old state |
| `WatchLoop.RunBot` | homework.py:140-169 | stops with `TokensException` and sends nothing iff a credential is missing; otherwise its log and final state are those of running `Cycle` over the iterations from the initial state |
| `LoopProperties.EmptyListIsQuiet` | homework.py:149-151 | an empty validated list sends nothing and changes neither variable |
| `LoopProperties.OnlyFirstRecordMatters` | homework.py:152-153 | two answers that differ only after the first record give the same iteration |
| `LoopProperties.ReportIsSentFirst` | homework.py:153-154 | when the first record renders, its text is the first message sent |
| `LoopProperties.CursorRule` | homework.py:154-157 | the cursor becomes `current_date` exactly when the report was delivered and `current_date` is truthy; otherwise it keeps its value |
| `LoopProperties.UndeliveredReportChangesNothing` | homework.py:154-155 | an undelivered report raises nothing and changes neither variable |
| `LoopProperties.MissingCurrentDateIsAlwaysReported` | homework.py:155-167 | a delivered report without `current_date` raises with the previous error text, and the resulting error report is always sent and becomes the last error |
| `LoopProperties.ErrorBranch` | homework.py:162-167 | an error report is sent iff it differs from the last one, and it is the last one afterwards; without an error the last one is unchanged |
| `LoopProperties.RaisedAfterSend` | homework.py:153-161 | the only error raised after a send in the same iteration is `EmptyCurrentDateException` with the previous error text |
| `LoopProperties.SameErrorIsSilent` | homework.py:162-167 | an iteration whose error report equals the last one sends nothing and changes nothing |
| `LoopProperties.RunStep` | homework.py:146-169 | iteration `i` of a run goes from the state before it to the state before `i + 1` and logs its sends |
| `LoopProperties.RepeatedErrorReportedOnce` | homework.py:162-167 | two consecutive iterations with the same error report: the second sends nothing |
| `LoopProperties.ErrorStretchReportedOnce` | homework.py:146-169 | consecutive iterations with one and the same error report send only in the first of them |
| `LoopProperties.RunCursor` | homework.py:144-169 | after a run the cursor is the `current_date` of the last iteration that advanced it, or the start time |
| `LoopProperties.NoDeliveryKeepsCursor` | homework.py:154-157 | a run in which no report is delivered leaves the cursor where it started |
| `LoopProperties.EmptyAnswerScenario` | homework.py:150-151 | `{"homeworks": [], "current_date": 1000}` sends nothing and changes nothing |
| `LoopProperties.ApprovedScenario` | homework.py:153-157 | an approved `hw1` with `current_date` 2000, delivered, sends the approved report and moves the cursor to 2000 |
| `LoopProperties.ServiceUnavailableScenario` | homework.py:100-102 | status 503 twice from the start: one error report `Сбой в работе программы: Код ответа API 503`, then nothing |
| `LoopProperties.UnknownStatusScenario` | homework.py:132-134 | an unknown status is reported as `Сбой в работе программы: Неожиданный status` and the cursor stays |
| `LoopProperties.CursorTakesAnyCurrentDate` | homework.py:156-157 | the cursor may move backwards or become a non-integer |

## Left out

- The HTTP request (`requests.get`, endpoint, headers, `from_date` parameter) and JSON decoding: their outcome is the input `HttpOutcome`, with the decoder's error text given.
- The Telegram client (`TeleBot`, `bot.send_message`): its outcome per send is the input `Delivery`.
- Environment loading (`load_dotenv`, `os.getenv`): the three credentials are parameters of `CheckTokens` and `RunBot`.
- `time.time()` is the parameter `now`; `time.sleep(RETRY_PERIOD)` has no observable effect on the state and is not modelled.
- The infinite `while True` is modelled as a finite list of iterations.
- Logging: only the names `check_tokens` logs as missing are modelled; log texts and logging set-up are not.
- JSON floating-point numbers are not modelled.
- `PyJson.Str`: Python's `str()` of a list or dict homework name (element quoting, escaping, key order) is rendered by a placeholder.
- Texts of Python built-in exceptions (`TypeError`, `AttributeError`, `KeyError`) follow CPython 3.12 wording.
- `Homework.CheckResponse`: its contract states the exception class of each failure, not the text.
- `APIResponseException` and `EndpointException` of exeptions.py are never raised by the code and have no constructor.
