# homework_bot polling core, modelled in Dafny

The bot polls the Yandex Practicum homework-review API for the status of the latest
submission and relays changes to a Telegram chat. This project models the decision
logic of `homework.py`. Each cycle runs in five stages:

1. Classify the HTTP answer (`get_api_answer`).
2. Validate the decoded payload (`check_response`).
3. Render the status text from the catalog `UPDATE_MESSAGES` (`parse_status`).
4. Decide whether to notify and when to move the time cursor (the body of `main`'s loop).
5. Report failures, skipping a report identical to the last one sent.

Modules:

- `Wrappers` (`wrappers.dfy`): `Option`.
- `PyJson` (`py_json.dfy`): a decoded JSON value as Python sees it.
  - Dicts keep document order.
  - `IsTruthy` is Python truthiness.
  - `Get` is `dict.get`.
  - `PyEq` is Python `==`: `True == 1`, and dicts compare without regard to order.
  - `IntStr`, `Repr` and `Str` are the `str()`/`repr()` text that f-strings put into messages.
- `Homework` (`homework.dfy`): the pure functions.
  - The catalog.
  - The closed `Error` type, one constructor per exception that can reach `main`'s `except`.
  - `Describe`, the `str()` of each of those exceptions.
  - `GetApiAnswer`, `CheckResponse` and `ParseStatus`, each returning a `Result`.
- `Polling` (`polling.dfy`): the loop.
  - `State` holds `current_timestamp`, `previous_report` and `previous_message`.
  - `Inputs` holds what one cycle learns from outside: the HTTP outcome, whether each of the two possible sends succeeds, and what `get_timestamp` returns.
  - `TryBlock` and `Cycle` are the specification of one iteration.
  - `Run` specifies a sequence of iterations.
  - Class `PollLoop` has the three variables as fields. Its `Step` and `Serve` methods are proved against `Cycle` and `Run`.

In several places the code does less than its own comments and structure suggest. The model follows what the code does:

- **Empty `homeworks` list.** `check_response` has a dedicated IndexError branch for an empty list (lines 125-127), but an empty list already fails the truthiness test at line 110. So `{"current_date": 1, "homeworks": []}` gives the KeyError for `homeworks`, and the IndexError branch is unreachable.
- **Failed status notification.** It is not a silent, local failure. `send_message` raises, so the cycle reports "Не удалось отправить сообщение в Telegram." through the failure path and records neither the report nor the cursor.
- **Failed failure report.** If sending a failure report fails (line 205), the exception escapes `main`. `Cycle` returns `halted`.
- **Missing credentials.** `check_tokens` (lines 156-164) returns False and logs a critical message when a credential is missing, but `main` ignores its result (line 185), so nothing stops.
- **The cursor.** The docstring of `main` (lines 181-183) says later requests use the `date_updated` of the latest homework. The cursor is set to the report's own timestamp with no comparison, so nothing keeps it from decreasing.
- **Exception classes.** `exceptions.py` does not define `ResponseError` or `SendMessageError`, which `homework.py` imports (lines 12-15). Its constructors also take no message, yet `homework.py` passes one. The model uses the messages `homework.py` passes.

## Model

| member | source | states |
|---|---|---|
| `PyJson.Get` | homework.py:106-114 | `dict.get` on a key the dict does not hold gives None. |
| `PyJson.IsTruthy` | homework.py:106-110 | Python truthiness, as the `not` tests at lines 106, 110 and 140 use it: None, False, 0, the empty string, list and dict are falsy. |
| `PyJson.GetIsLast` | homework.py:137-138 | The value found for a key is the one the dict holds: the last field with that key. |
| `PyJson.PyEq` | homework.py:194 | Python `==` on decoded values: `True == 1`, lists element by element, dicts by key set and held values whatever the field order. |
| `PyJson.PyEqSymmetric` | homework.py:194 | `x == y` implies `y == x`, so the comparison of `previous_report` with `current_report` does not depend on the order of its operands. |
| `PyJson.PyEqReflexive` | homework.py:194 | Python `==` on any decoded value (a report included) holds between the value and itself. |
| `PyJson.IntStrRoundTrip` | homework.py:82-83 | `int(str(n)) == n`, so the status code quoted in a message can be read back. |
| `PyJson.IntStrInjective` | homework.py:82-83 | Distinct status codes are written as distinct text. |
| `PyJson.StrReprRoundTrip` | homework.py:102-104 | The text between the quotes of `repr(s)` decodes back to `s` (what `ast.literal_eval` would recover), whichever quote `repr` picked. In the not-a-dict and not-a-list messages `repr` applies only to strings nested in a list or dict payload and to dict keys; a top-level string payload goes in through `str()` unquoted. |
| `PyJson.StrReprInjective` | homework.py:102-104 | Distinct strings have distinct reprs, so a string nested inside a list or dict payload is quoted differently when it changes. |
| `PyJson.Repr` | homework.py:102-104 | `repr` of a decoded value: None, True/False, decimal integers, quoted and escaped strings, `[a, b]` lists and `{'k': v}` dicts in field order. |
| `PyJson.Str` | homework.py:120-123 | What an f-string inserts: a string as it is, any other value as its repr. |
| `PyJson.TypeName` | homework.py:137-148 | The type name Python puts in the AttributeError of `.get` on a non-dict report (line 137) and in the TypeError of `in` on a list or dict status (line 148). |
| `Homework.Describe` | homework.py:47-150 | The `str()` of every exception that reaches `main`'s `except`: the messages passed at lines 68-70, 76-78, 85-88, 102-104, 108, 112, 120-123, 144-146 and 150 and at line 47 (`send_message`); KeyError texts wrapped in quotes as `str(KeyError(m))` does; Python's own AttributeError and TypeError texts; the detail of a transport, decoding or timestamp exception. |
| `Homework.GetApiAnswer` | homework.py:58-90 | Success exactly for status 200 with a decodable body, which is returned unmodified. A transport exception gives a request error. 404 gives endpoint-unavailable; that branch comes first. Any other non-200 code gives a bad-status error carrying that code. An undecodable 200 body gives a decode error. |
| `Homework.CheckResponse` | homework.py:98-129 | Success exactly for a dict with a truthy `current_date` and a non-empty `homeworks` list, which is returned. Otherwise the first failing check decides the error, in order: not a dict (TypeError), then falsy `current_date` (KeyError), then falsy `homeworks` (KeyError), then a non-list `homeworks` (TypeError). The empty-list error never occurs. |
| `Homework.ParseStatus` | homework.py:137-153 | Success exactly for a dict with a truthy name and a status among the three catalog keys. The result is then exactly `Изменился статус проверки работы "<name>". <verdict>`. A non-dict report fails with the AttributeError of `.get`. A missing or falsy name or status fails with the KeyError before the catalog is consulted. A list or dict status fails with the TypeError of `in` (unhashable type). The wrong-status error occurs exactly when both are truthy and the status is hashable but not a catalog key. |
| `Homework.NotificationInjective` | homework.py:152-153 | Two equal notifications come from the same homework name and the same status. |
| `Homework.VerdictsNotSuffixes` | homework.py:30-34 | No catalog verdict ends with another, so a notification's ending identifies its status. |
| `Polling.TryBlock` | homework.py:191-201 | The `try` block never touches `previous_message`. It hands at most one message to the messenger. A failure other than the timestamp conversion leaves the cursor and the recorded report as they were. The cursor moves only in a cycle that fully succeeds and sent its notification. The report is recorded only after its notification was delivered. `previous_report` stays a dict. |
| `Polling.FailureReport` | homework.py:202-203 | The failure report is `Сбой в работе программы: ` followed by the exception's `str()`. |
| `Polling.TimestampFailureKeepsReport` | homework.py:197-199 | The report is recorded before `get_timestamp` runs. So when the timestamp conversion fails, the new report (one not `==` the old) is kept, the cursor stays, and the notification was delivered. |
| `Polling.Cycle` | homework.py:191-208 | A cycle sends at most two messages and keeps `previous_report` a dict. `previous_message` changes only to the failure report just delivered. The loop ends only when a failure report, different from the last one, fails to send. |
| `Polling.FailureDeduplicated` | homework.py:202-206 | Whatever failed in the `try` block, a failure whose report equals `previous_message` is not sent, and the cycle ends with the state the `try` block left. Any other failure report is sent after the `try` block's messages. |
| `Polling.Run` | homework.py:190-208 | The loop over a script of cycles, stopping at the first exception that escapes. It keeps `previous_report` a dict, sends at most two messages per cycle, and halts only after a cycle that sent something. |
| `Polling.PollLoop.constructor` | homework.py:187-189 | The loop starts with cursor 0, an empty dict as the previous report, and an empty previous message. |
| `Polling.PollLoop.Step` | homework.py:190-208 | One pass through the loop body updates the three variables and returns the messages handed over, exactly as `Cycle` prescribes. It keeps `previous_report` a dict. |
| `Polling.PollLoop.Serve` | homework.py:190-208 | The loop, run over a script of cycles until the script ends or an exception escapes. Its variables and messages are exactly those of `Run`. |
| `Polling.UnchangedReportIsSilent` | homework.py:194-201 | A fetched report equal to `previous_report` sends nothing and leaves the cursor, the recorded report and `previous_message` unchanged. |
| `Polling.NewReportIsAnnounced` | homework.py:194-199 | For a new, renderable report whose notification is delivered and whose timestamp parses, the cycle sends exactly that notification. It records the report and sets the cursor to the report's timestamp. |
| `Polling.SameReportAnnouncedOnce` | homework.py:194-199 | After a cycle has delivered the notification for a report, a later fetch of the same report is silent and changes nothing. |
| `Polling.EarlyFailureCycle` | homework.py:192-206 | A request or validation failure, or a changed report that `parse_status` rejects, leaves the cursor and the recorded report alone. The failure text is sent only if it differs from `previous_message`. `previous_message` takes that text only when the send succeeds; a failed send ends the loop. |
| `Polling.RecurringFailureReportedOnce` | homework.py:192-206 | Over any number of cycles that fail with the same request, validation or `parse_status` error, whatever the messenger does, the error is sent at most once (not at all if it was the last error reported). The loop halts exactly when that one report is new and its delivery fails, and then keeps the old `previous_message`; otherwise `previous_message` becomes the report. The cursor and the recorded report do not move. |
| `Polling.LateFailureCycle` | homework.py:194-206 | For a changed report, the exact transition of each late failure. A `parse_status` error changes nothing but the reported message. A failed notification was still handed over, and the cursor and recorded report stay. A `get_timestamp` failure keeps the new report and the old cursor. In each case the failure text is sent only if it differs from `previous_message`. |
| `Polling.NonDictReportRejected` | homework.py:188-195 | Since `previous_report` is always a dict, a report that is not a dict always reaches `parse_status`, which fails on `.get` before anything is sent or recorded. |
| `Polling.ApprovedHomeworkAnnounced` | homework.py:192-199 | From the initial state, a response with one approved homework named `X` sends `Изменился статус проверки работы "X". ` followed by the approved verdict. The cycle records that homework and moves the cursor to its timestamp. |
| `Polling.UnknownStatusReported` | homework.py:192-206 | From the initial state, a homework with a status outside the catalog is not announced: only the wrong-status failure report is sent, and it becomes `previous_message`. |
| `Polling.EmptyPayloadReported` | homework.py:106-108 | `{}` fails on `current_date` and produces exactly one failure report. The cursor is unchanged. |
| `Polling.EmptyHomeworksIsMissingKey` | homework.py:110-127 | `{"current_date": 1, "homeworks": []}` fails with the missing-`homeworks` KeyError, not with the empty-list error. |
| `Polling.NotFoundReportDiffers` | homework.py:72-88 | The failure report for a 404 differs from the report for every other status code. |
| `Polling.TopLevelPayloadsMayShareReport` | homework.py:102-123 | A payload of the wrong type goes into its message through `str()`: the string `"None"` and null, or `"1"` and `1`, give the same failure report, so such a change is deduplicated. |
| `Polling.NestedStringReportsDiffer` | homework.py:102-104 | For a list payload holding one string, equal not-a-dict reports come from equal strings, because the nested string is written with `repr`. |
| `Polling.BadStatusReportsDiffer` | homework.py:80-88 | Equal bad-status failure reports come from equal status codes. So a change of code is reported again, not deduplicated. |

## Left out

- `requests.get`, `response.json()` and `Bot.send_message` are network and foreign calls. Their results are the inputs of a cycle: a transport failure or a status with a decoded or undecodable body, and a delivered flag for each of the two sends. The text of their exceptions is an input string.
- The request is not tied to the cursor: `current_timestamp` is sent as `from_date` (lines 57 and 192), but a cycle's HTTP outcome is an independent input, so the cursor's effect on what the next fetch returns is not modelled.
- `get_timestamp` is not modelled: its result is the `Stamp` input of a cycle. `datetime.strptime(..., '%Y-%m-%dT%H:%M:%SZ').timestamp()` depends on the host's local time zone, and the format check is not modelled either.
- `load_dotenv`, `os.getenv`, `check_tokens` and the construction of `Bot` are environment plumbing.
- Logging, `time.sleep(RETRY_TIME)` and the endlessness of `while True` are left out. `Serve` runs a finite script of cycles.
- `exceptions.py` is replaced by the closed `Error` datatype, because it holds no logic.
- JSON numbers with a fraction or an exponent (Python floats) are left out of `Json` because they involve floating point. Only integers, booleans, strings, null, lists and dicts are modelled.
- PyJson.StrRepr: escapes as `\xhh` only the non-printable characters up to U+00FF. Characters above U+00FF that Python's `repr` treats as non-printable are kept as they are, because Python's Unicode printability table is not modelled. `Unescape`, the inverse used by `PyJson.StrReprRoundTrip`, reads only the escapes this model writes, not every escape of a Python literal.
- PyJson.Repr: a dict whose field list repeats a key is rendered with every field, whereas the dict the decoder builds shows the key once.
