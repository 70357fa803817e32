/**
 * The pure part of the bot: the status catalog, the kinds of failure the
 * polling cycle can meet (with the text `str()` gives for each), the
 * classification of the HTTP answer, the validation of the decoded payload
 * and the rendering of a homework record as a notification.
 */
module Homework {
  import opened PyJson

  // ---------------------------------------------------------------------
  // The status catalog (UPDATE_MESSAGES).

  const APPROVED := "approved"
  const REVIEWING := "reviewing"
  const REJECTED := "rejected"

  const UPDATE_MESSAGES: map<string, string> := map[
    APPROVED := "Работа проверена: ревьюеру всё понравилось. Ура!",
    REVIEWING := "Работа взята на проверку ревьюером.",
    REJECTED := "Работа проверена: у ревьюера есть замечания."
  ]

  // ---------------------------------------------------------------------
  // Failures.

  /** Every exception that can reach the `except` branch of the polling cycle. */
  datatype Error =
    | RequestFailed(detail: string)       // requests.get raised; detail is str() of that exception
    | EndpointUnavailable                 // HTTP 404
    | BadStatus(code: int)                // any other status but 200
    | BodyNotJson(detail: string)         // response.json() raised on a 200 reply
    | ResponseNotADict(response: Json)    // check_response: TypeError
    | MissingResponseKey(key: string)     // check_response: KeyError for `current_date` or `homeworks`
    | HomeworksNotAList(homeworks: Json)  // check_response: TypeError
    | EmptyHomeworks                      // check_response: IndexError
    | ReportNotADict(report: Json)        // parse_status: AttributeError from `.get` on a non-dict
    | MissingNameOrStatus                 // parse_status: KeyError
    | UnhashableStatus(status: Json)      // parse_status: TypeError from `status in UPDATE_MESSAGES`
    | WrongStatus                         // parse_status: status outside the catalog
    | SendFailed                          // send_message: the messenger call raised
    | TimestampFailed(detail: string)     // get_timestamp raised; detail is str() of that exception

  /** `str(KeyError(m))` is the repr of `m`; none of the messages below holds a quote or a backslash. */
  function KeyErrorText(m: string): string {
    "'" + m + "'"
  }

  /** The name of the review service, as the messages spell it. */
  const SERVICE := "Практикум.Домашка"

  /** The two fragments of the bad-status message, which the source writes with no space between them. */
  const BAD_STATUS_TEXT := "При запросе к сервису " + SERVICE + " возникла ошибка." + "Код ответа: "

  /** `str(error)`: the text the failure report quotes. */
  function Describe(e: Error): string {
    match e
    case RequestFailed(d) => "Сбой при запросе к сервису " + SERVICE + ": " + d + "."
    case EndpointUnavailable => "Эндпоинт " + SERVICE + " недоступен. Код ответа: 404)."
    case BadStatus(c) => BAD_STATUS_TEXT + IntStr(c) + "."
    case BodyNotJson(d) => d
    case ResponseNotADict(j) =>
      "Ответ сервиса не является словарем. Ответ сервиса " + Str(j) + "."
    case MissingResponseKey(k) => KeyErrorText("В полученном ответе отсутствует ключ `" + k + "`.")
    case HomeworksNotAList(j) =>
      "Значение по ключу `homeworks` не является списком." + "Ответ сервиса: " + Str(j)
    case EmptyHomeworks => "Значение по ключу `homeworks` - пустой список."
    case ReportNotADict(j) => "'" + TypeName(j) + "' object has no attribute 'get'"
    case MissingNameOrStatus => KeyErrorText("В ответе отсутствуют ключи `homework_name` и/или `status`")
    case UnhashableStatus(j) => "unhashable type: '" + TypeName(j) + "'"
    case WrongStatus => "Получен некорректный статус работы."
    case SendFailed => "Не удалось отправить сообщение в Telegram."
    case TimestampFailed(d) => d
  }

  datatype Result<+T> = Ok(value: T) | Err(error: Error)

  // ---------------------------------------------------------------------
  // get_api_answer: what one HTTP request produced, and how it is classified.

  const HTTP_OK := 200
  const HTTP_NOT_FOUND := 404

  /** What `response.json()` makes of the body. */
  datatype Body = Decoded(json: Json) | Undecodable(detail: string)

  /** What `requests.get` produced: an exception, or a reply with a status code. */
  datatype HttpOutcome = TransportFailure(detail: string) | Reply(status: int, body: Body)

  /** The status-code classification of `get_api_answer`; the 404 branch comes before the generic one. */
  function GetApiAnswer(outcome: HttpOutcome): (r: Result<Json>)
    ensures r.Ok? <==> outcome.Reply? && outcome.status == HTTP_OK && outcome.body.Decoded?
    ensures r.Ok? ==> r.value == outcome.body.json
    ensures outcome.TransportFailure? ==> r == Err(RequestFailed(outcome.detail))
    ensures outcome.Reply? && outcome.status == HTTP_NOT_FOUND ==> r == Err(EndpointUnavailable)
    ensures outcome.Reply? && outcome.status != HTTP_OK && outcome.status != HTTP_NOT_FOUND ==>
              r == Err(BadStatus(outcome.status))
    ensures outcome.Reply? && outcome.status == HTTP_OK && outcome.body.Undecodable? ==>
              r == Err(BodyNotJson(outcome.body.detail))
  {
    match outcome
    case TransportFailure(d) => Err(RequestFailed(d))
    case Reply(status, body) =>
      if status == HTTP_NOT_FOUND then Err(EndpointUnavailable)
      else if status != HTTP_OK then Err(BadStatus(status))
      else match body
        case Decoded(j) => Ok(j)
        case Undecodable(d) => Err(BodyNotJson(d))
  }

  // ---------------------------------------------------------------------
  // check_response.

  /** A payload the validator accepts: a dict with a truthy `current_date` and a non-empty `homeworks` list. */
  predicate WellShaped(response: Json) {
    && response.JObject?
    && IsTruthy(Get(response.fields, "current_date"))
    && Get(response.fields, "homeworks").JArray?
    && Get(response.fields, "homeworks").items != []
  }

  /**
   * The checks of `check_response`, in their order, stopping at the first
   * that fails; on success the `homeworks` list itself.
   */
  function CheckResponse(response: Json): (r: Result<seq<Json>>)
    ensures r.Ok? <==> WellShaped(response)
    ensures r.Ok? ==> r.value == Get(response.fields, "homeworks").items && r.value != []
    ensures !response.JObject? ==> r == Err(ResponseNotADict(response))
    ensures response.JObject? && !IsTruthy(Get(response.fields, "current_date")) ==>
              r == Err(MissingResponseKey("current_date"))
    ensures response.JObject? && IsTruthy(Get(response.fields, "current_date"))
              && !IsTruthy(Get(response.fields, "homeworks")) ==>
              r == Err(MissingResponseKey("homeworks"))
    ensures response.JObject? && IsTruthy(Get(response.fields, "current_date"))
              && IsTruthy(Get(response.fields, "homeworks")) && !Get(response.fields, "homeworks").JArray? ==>
              r == Err(HomeworksNotAList(Get(response.fields, "homeworks")))
    // The empty-list test comes after the truthiness test, so it never fires.
    ensures r != Err(EmptyHomeworks)
  {
    if !response.JObject? then Err(ResponseNotADict(response))
    else if !IsTruthy(Get(response.fields, "current_date")) then Err(MissingResponseKey("current_date"))
    else if !IsTruthy(Get(response.fields, "homeworks")) then Err(MissingResponseKey("homeworks"))
    else
      var homeworks := Get(response.fields, "homeworks");
      if !homeworks.JArray? then Err(HomeworksNotAList(homeworks))
      else if homeworks.items == [] then Err(EmptyHomeworks)
      else Ok(homeworks.items)
  }

  // ---------------------------------------------------------------------
  // parse_status.

  /** The notification for a homework whose name renders as `name` and whose verdict is `verdict`. */
  function Notification(name: string, verdict: string): string {
    "Изменился статус проверки работы \"" + name + "\". " + verdict
  }

  /** The record is a dict with a truthy name and a status the catalog knows. */
  predicate Renderable(report: Json) {
    && report.JObject?
    && IsTruthy(Get(report.fields, "homework_name"))
    && Get(report.fields, "status").JStr?
    && Get(report.fields, "status").s in UPDATE_MESSAGES
  }

  /** `parse_status`: the missing-key check first, then the catalog. */
  function ParseStatus(report: Json): (r: Result<string>)
    ensures r.Ok? <==> Renderable(report)
    ensures r.Ok? ==>
              r.value == Notification(Str(Get(report.fields, "homework_name")),
                                      UPDATE_MESSAGES[Get(report.fields, "status").s])
    ensures !report.JObject? ==> r == Err(ReportNotADict(report))
    ensures report.JObject?
              && !(IsTruthy(Get(report.fields, "status")) && IsTruthy(Get(report.fields, "homework_name"))) ==>
              r == Err(MissingNameOrStatus)
    // A list or dict status cannot be looked up in the catalog: `in` raises TypeError.
    ensures report.JObject?
              && IsTruthy(Get(report.fields, "status")) && IsTruthy(Get(report.fields, "homework_name"))
              && (Get(report.fields, "status").JArray? || Get(report.fields, "status").JObject?) ==>
              r == Err(UnhashableStatus(Get(report.fields, "status")))
    ensures r == Err(WrongStatus) <==>
              && report.JObject?
              && IsTruthy(Get(report.fields, "status")) && IsTruthy(Get(report.fields, "homework_name"))
              && !Get(report.fields, "status").JArray? && !Get(report.fields, "status").JObject?
              && !(Get(report.fields, "status").JStr? && Get(report.fields, "status").s in UPDATE_MESSAGES)
  {
    if !report.JObject? then Err(ReportNotADict(report))
    else
      var name := Get(report.fields, "homework_name");
      var status := Get(report.fields, "status");
      if !(IsTruthy(status) && IsTruthy(name)) then Err(MissingNameOrStatus)
      else if status.JArray? || status.JObject? then Err(UnhashableStatus(status))
      else if !(status.JStr? && status.s in UPDATE_MESSAGES) then Err(WrongStatus)
      else Ok(Notification(Str(name), UPDATE_MESSAGES[status.s]))
  }

  /**
   * A notification names its homework and its verdict unambiguously: equal
   * texts come from equal names and equal verdicts.
   */
  lemma NotificationInjective(name1: string, status1: string, name2: string, status2: string)
    requires status1 in UPDATE_MESSAGES && status2 in UPDATE_MESSAGES
    requires Notification(name1, UPDATE_MESSAGES[status1]) == Notification(name2, UPDATE_MESSAGES[status2])
    ensures name1 == name2 && status1 == status2
  {
    var v1, v2 := UPDATE_MESSAGES[status1], UPDATE_MESSAGES[status2];
    var t := Notification(name1, v1);
    assert t == Notification(name1, v1) && t == Notification(name2, v2);
    // Each verdict ends t, so the shorter ends the longer, which only a verdict does of itself.
    assert EndsWith(t, v1) && EndsWith(t, v2);
    if |v1| <= |v2| {
      SuffixOfSuffix(t, v1, v2);
      VerdictsNotSuffixes(status1, status2);
    } else {
      SuffixOfSuffix(t, v2, v1);
      VerdictsNotSuffixes(status2, status1);
    }
    var head := "Изменился статус проверки работы \"";
    assert t[..|t| - |v1|] == head + name1 + "\". ";
    assert t[..|t| - |v2|] == head + name2 + "\". ";
    assert name1 == (head + name1 + "\". ")[|head|..|head| + |name1|];
  }

  predicate EndsWith(t: string, v: string) {
    |v| <= |t| && t[|t| - |v|..] == v
  }

  lemma SuffixOfSuffix(t: string, short: string, long: string)
    requires EndsWith(t, short) && EndsWith(t, long) && |short| <= |long|
    ensures EndsWith(long, short)
  {
  }

  /** No catalog verdict ends with another one. */
  lemma VerdictsNotSuffixes(s1: string, s2: string)
    requires s1 in UPDATE_MESSAGES && s2 in UPDATE_MESSAGES
    ensures EndsWith(UPDATE_MESSAGES[s2], UPDATE_MESSAGES[s1]) ==> s1 == s2
  {
  }
}
