/**
 * The polling loop of `main`: the three variables it carries from one cycle
 * to the next, what one cycle does to them, and which messages it hands to
 * the messenger. The network, the messenger, the clock and `get_timestamp`'s
 * date conversion are inputs of a cycle.
 */
module Polling {
  import opened Wrappers
  import opened PyJson
  import opened Homework

  /** `current_timestamp`, `previous_report` and `previous_message`. */
  datatype State = State(currentTimestamp: int, previousReport: Json, previousMessage: string)

  /** The values `main` starts with. */
  const INITIAL := State(0, JObject([]), "")

  /**
   * `previous_report` only ever holds a dict. Every cycle keeps this, and
   * `NonDictReportRejected` relies on it.
   */
  predicate Consistent(s: State) {
    s.previousReport.JObject?
  }

  /** What `get_timestamp` makes of this cycle's report. */
  datatype Stamp = Parsed(epoch: int) | Unparsable(detail: string)

  /** Everything a cycle learns from outside. */
  datatype Inputs = Inputs(
    http: HttpOutcome,        // the request and the decoding of its body
    statusDelivered: bool,    // whether sending the status notification succeeds
    reportDelivered: bool,    // whether sending the failure report succeeds
    stamp: Stamp)             // get_timestamp of the report, when it is reached

  /** The messages handed to the messenger, in order, and whether an exception escaped `main`. */
  datatype StepOutcome = StepOutcome(sent: seq<string>, halted: bool)

  datatype Transition = Transition(state: State, outcome: StepOutcome)

  const FAILURE_PREFIX := "Сбой в работе программы: "

  /** The failure report for `e`. */
  function FailureReport(e: Error): string {
    FAILURE_PREFIX + Describe(e)
  }

  /** The record a valid response announces: the first element of `homeworks`. */
  function LatestReport(response: Json): Json
    requires CheckResponse(response).Ok?
  {
    CheckResponse(response).value[0]
  }

  /** What the `try` block leaves: the variables, the messages it handed over, and the exception that ended it. */
  datatype Attempt = Attempt(pending: State, sent: seq<string>, failure: Option<Error>)

  /** The `try` block of one cycle. */
  function TryBlock(s: State, input: Inputs): (a: Attempt)
    ensures a.pending.previousMessage == s.previousMessage
    // Nothing is recorded before the notification has gone out.
    ensures a.failure.Some? && !a.failure.value.TimestampFailed? ==> a.pending == s
    ensures a.pending.currentTimestamp != s.currentTimestamp ==> a.failure.None? && a.sent != []
    ensures a.pending.previousReport != s.previousReport ==> a.sent != [] && input.statusDelivered
    ensures |a.sent| <= 1
    ensures Consistent(s) ==> Consistent(a.pending)
  {
    match GetApiAnswer(input.http)
    case Err(e) => Attempt(s, [], Some(e))
    case Ok(response) =>
      match CheckResponse(response)
      case Err(e) => Attempt(s, [], Some(e))
      case Ok(homeworks) =>
        var report := homeworks[0];
        if PyEq(s.previousReport, report) then Attempt(s, [], None)
        else match ParseStatus(report)
          case Err(e) => Attempt(s, [], Some(e))
          case Ok(message) =>
            if !input.statusDelivered then Attempt(s, [message], Some(SendFailed))
            else
              var recorded := s.(previousReport := report);
              match input.stamp
              case Unparsable(d) => Attempt(recorded, [message], Some(TimestampFailed(d)))
              case Parsed(t) => Attempt(recorded.(currentTimestamp := t), [message], None)
  }

  /**
   * The report is recorded before `get_timestamp` runs, so when that fails the
   * new report is kept and the cursor stays where it was.
   */
  lemma TimestampFailureKeepsReport(s: State, input: Inputs)
    ensures var a := TryBlock(s, input);
            a.failure.Some? && a.failure.value.TimestampFailed? ==>
              && GetApiAnswer(input.http).Ok? && CheckResponse(GetApiAnswer(input.http).value).Ok?
              && a.pending.previousReport == LatestReport(GetApiAnswer(input.http).value)
              && !PyEq(s.previousReport, a.pending.previousReport)
              && a.pending.currentTimestamp == s.currentTimestamp
              && input.statusDelivered && input.stamp == Unparsable(a.failure.value.detail)
  {
  }

  /** One cycle: the `try` block, then the `except` branch that reports a failure unless it was the last one reported. */
  function Cycle(s: State, input: Inputs): (t: Transition)
    ensures Consistent(s) ==> Consistent(t.state)
    ensures |t.outcome.sent| <= 2
    // previous_message changes only to a report that has just been delivered.
    ensures t.state.previousMessage != s.previousMessage ==>
              && input.reportDelivered && !t.outcome.halted
              && t.outcome.sent != [] && t.state.previousMessage == t.outcome.sent[|t.outcome.sent| - 1]
    // Only a failed report of a new failure ends the loop.
    ensures t.outcome.halted ==>
              (!input.reportDelivered && t.outcome.sent != []
               && t.outcome.sent[|t.outcome.sent| - 1] != s.previousMessage)
  {
    var a := TryBlock(s, input);
    match a.failure
    case None => Transition(a.pending, StepOutcome(a.sent, false))
    case Some(e) =>
      var message := FailureReport(e);
      if message == a.pending.previousMessage then Transition(a.pending, StepOutcome(a.sent, false))
      else if input.reportDelivered then
        Transition(a.pending.(previousMessage := message), StepOutcome(a.sent + [message], false))
      else Transition(a.pending, StepOutcome(a.sent + [message], true))
  }

  /**
   * Whatever failed in the `try` block, a failure whose report equals
   * `previous_message` is not reported again and changes nothing more; any
   * other failure is handed to the messenger after what the `try` block sent.
   */
  lemma FailureDeduplicated(s: State, input: Inputs)
    ensures var a, t := TryBlock(s, input), Cycle(s, input);
            a.failure.Some? && FailureReport(a.failure.value) == s.previousMessage ==>
              t == Transition(a.pending, StepOutcome(a.sent, false))
    ensures var a, t := TryBlock(s, input), Cycle(s, input);
            a.failure.Some? && FailureReport(a.failure.value) != s.previousMessage ==>
              t.outcome.sent == a.sent + [FailureReport(a.failure.value)]
  {
  }

  /** The cycles `main` runs for a script of inputs, up to the first exception that escapes. */
  function Run(s: State, script: seq<Inputs>): (t: Transition)
    ensures Consistent(s) ==> Consistent(t.state)
    ensures |t.outcome.sent| <= 2 * |script|
    ensures t.outcome.halted ==> script != [] && t.outcome.sent != []
    decreases |script|
  {
    if script == [] then Transition(s, StepOutcome([], false))
    else
      var first := Cycle(s, script[0]);
      if first.outcome.halted then first
      else Prepend(first.outcome.sent, Run(first.state, script[1..]))
  }

  function Prepend(sent: seq<string>, t: Transition): Transition {
    Transition(t.state, StepOutcome(sent + t.outcome.sent, t.outcome.halted))
  }

  lemma RunUnfold(s: State, script: seq<Inputs>)
    requires script != []
    ensures var first := Cycle(s, script[0]);
            Run(s, script) == if first.outcome.halted then first
                              else Prepend(first.outcome.sent, Run(first.state, script[1..]))
  {
  }

  lemma PrependTwice(a: seq<string>, b: seq<string>, t: Transition)
    ensures Prepend(a, Prepend(b, t)) == Prepend(a + b, t)
  {
  }

  // ---------------------------------------------------------------------
  // main, as an object whose fields are its three loop variables.

  class PollLoop {
    var currentTimestamp: int
    var previousReport: Json
    var previousMessage: string

    ghost predicate Valid()
      reads this
    {
      Consistent(Snapshot())
    }

    function Snapshot(): State
      reads this
    {
      State(currentTimestamp, previousReport, previousMessage)
    }

    constructor ()
      ensures Valid() && Snapshot() == INITIAL
    {
      currentTimestamp := 0;
      previousReport := JObject([]);
      previousMessage := "";
    }

    /** One pass through the body of `main`'s loop. */
    method Step(input: Inputs) returns (outcome: StepOutcome)
      requires Valid()
      modifies this
      ensures Valid()
      ensures Transition(Snapshot(), outcome) == Cycle(old(Snapshot()), input)
    {
      var sent: seq<string> := [];
      var failure: Option<Error> := None;
      var response := GetApiAnswer(input.http);
      if response.Err? {
        failure := Some(response.error);
      } else {
        var homeworks := CheckResponse(response.value);
        if homeworks.Err? {
          failure := Some(homeworks.error);
        } else {
          var report := homeworks.value[0];
          if !PyEq(previousReport, report) {
            var message := ParseStatus(report);
            if message.Err? {
              failure := Some(message.error);
            } else {
              sent := sent + [message.value];
              if !input.statusDelivered {
                failure := Some(SendFailed);
              } else {
                previousReport := report;
                match input.stamp
                case Unparsable(d) =>
                  failure := Some(TimestampFailed(d));
                case Parsed(t) =>
                  currentTimestamp := t;
              }
            }
          }
        }
      }
      var halted := false;
      if failure.Some? {
        var message := FailureReport(failure.value);
        if message != previousMessage {
          sent := sent + [message];
          if input.reportDelivered {
            previousMessage := message;
          } else {
            halted := true;
          }
        }
      }
      outcome := StepOutcome(sent, halted);
    }

    /** `main`'s loop over a script of cycles, until the script ends or an exception escapes. */
    method Serve(script: seq<Inputs>) returns (sent: seq<string>, halted: bool)
      requires Valid()
      modifies this
      ensures Valid()
      ensures Transition(Snapshot(), StepOutcome(sent, halted)) == Run(old(Snapshot()), script)
    {
      sent, halted := [], false;
      var i := 0;
      while i < |script| && !halted
        invariant 0 <= i <= |script|
        invariant Valid()
        invariant !halted ==> Run(old(Snapshot()), script) == Prepend(sent, Run(Snapshot(), script[i..]))
        invariant halted ==> Run(old(Snapshot()), script) == Transition(Snapshot(), StepOutcome(sent, true))
        decreases |script| - i
      {
        ghost var before := Snapshot();
        RunUnfold(before, script[i..]);
        assert script[i..][0] == script[i] && script[i..][1..] == script[i + 1..];
        var outcome := Step(script[i]);
        PrependTwice(sent, outcome.sent, Run(Snapshot(), script[i + 1..]));
        if outcome.halted {
          halted := true;
        }
        sent := sent + outcome.sent;
        i := i + 1;
      }
    }
  }

  // ---------------------------------------------------------------------
  // Properties of a cycle.

  /** A report equal to the previous one sends nothing and changes nothing. */
  lemma UnchangedReportIsSilent(s: State, input: Inputs, response: Json)
    requires GetApiAnswer(input.http) == Ok(response) && CheckResponse(response).Ok?
    requires PyEq(s.previousReport, LatestReport(response))
    ensures Cycle(s, input) == Transition(s, StepOutcome([], false))
  {
  }

  /**
   * A new, renderable report whose notification is delivered and whose
   * timestamp parses: exactly one message, the report recorded, the cursor moved.
   */
  lemma NewReportIsAnnounced(s: State, input: Inputs, response: Json)
    requires GetApiAnswer(input.http) == Ok(response) && CheckResponse(response).Ok?
    requires !PyEq(s.previousReport, LatestReport(response)) && Renderable(LatestReport(response))
    requires input.statusDelivered && input.stamp.Parsed?
    ensures Cycle(s, input) == Transition(State(input.stamp.epoch, LatestReport(response), s.previousMessage),
                                       StepOutcome([ParseStatus(LatestReport(response)).value], false))
  {
  }

  /** Once a report has been announced, fetching the same report again is silent. */
  lemma SameReportAnnouncedOnce(s: State, first: Inputs, second: Inputs, r1: Json, r2: Json)
    requires GetApiAnswer(first.http) == Ok(r1) && CheckResponse(r1).Ok?
    requires GetApiAnswer(second.http) == Ok(r2) && CheckResponse(r2).Ok?
    requires LatestReport(r2) == LatestReport(r1)
    requires Renderable(LatestReport(r1)) && first.statusDelivered
    ensures var after := Cycle(s, first).state;
            Cycle(after, second) == Transition(after, StepOutcome([], false))
  {
    var report := LatestReport(r1);
    var after := Cycle(s, first).state;
    if !PyEq(s.previousReport, report) {
      assert after.previousReport == report;
      PyEqReflexive(report);
    }
    UnchangedReportIsSilent(after, second, r2);
  }

  /**
   * The cycle fails before it hands anything to the messenger or records
   * anything: the request or the validation fails with `e`, or the report
   * differs from `previous` and `parse_status` rejects it with `e`.
   */
  predicate FailsBeforeNotifying(previous: Json, input: Inputs, e: Error) {
    match GetApiAnswer(input.http)
    case Err(e') => e' == e
    case Ok(response) =>
      match CheckResponse(response)
      case Err(e') => e' == e
      case Ok(homeworks) => !PyEq(previous, homeworks[0]) && ParseStatus(homeworks[0]) == Err(e)
  }

  /** Such a cycle reports the failure unless it is the last one reported. */
  lemma EarlyFailureCycle(s: State, input: Inputs, e: Error)
    requires FailsBeforeNotifying(s.previousReport, input, e)
    ensures var m := FailureReport(e);
            Cycle(s, input) ==
              if m == s.previousMessage then Transition(s, StepOutcome([], false))
              else if input.reportDelivered then Transition(s.(previousMessage := m), StepOutcome([m], false))
              else Transition(s, StepOutcome([m], true))
  {
    assert TryBlock(s, input) == Attempt(s, [], Some(e));
  }

  /**
   * A changed report whose cycle still fails: `parse_status` rejects it, the
   * notification cannot be sent, or `get_timestamp` fails. Each gives the
   * exact new state; the failure text is sent only when it differs from
   * `previous_message`.
   */
  lemma LateFailureCycle(s: State, input: Inputs, response: Json, e: Error)
    requires GetApiAnswer(input.http) == Ok(response) && CheckResponse(response).Ok?
    requires !PyEq(s.previousReport, LatestReport(response))
    requires TryBlock(s, input).failure == Some(e)
    ensures var report, m := LatestReport(response), FailureReport(e);
            ParseStatus(report).Err? ==>
              && e == ParseStatus(report).error
              && Cycle(s, input) ==
                   if m == s.previousMessage then Transition(s, StepOutcome([], false))
                   else if input.reportDelivered then Transition(s.(previousMessage := m), StepOutcome([m], false))
                   else Transition(s, StepOutcome([m], true))
    ensures var report, m := LatestReport(response), FailureReport(e);
            ParseStatus(report).Ok? && !input.statusDelivered ==>
              && e == SendFailed
              && var notice := ParseStatus(report).value;
                 Cycle(s, input) ==
                   if m == s.previousMessage then Transition(s, StepOutcome([notice], false))
                   else if input.reportDelivered then Transition(s.(previousMessage := m), StepOutcome([notice, m], false))
                   else Transition(s, StepOutcome([notice, m], true))
    ensures var report, m := LatestReport(response), FailureReport(e);
            ParseStatus(report).Ok? && input.statusDelivered ==>
              && input.stamp == Unparsable(e.detail)
              && var notice, recorded := ParseStatus(report).value, s.(previousReport := report);
                 Cycle(s, input) ==
                   if m == s.previousMessage then Transition(recorded, StepOutcome([notice], false))
                   else if input.reportDelivered then Transition(recorded.(previousMessage := m), StepOutcome([notice, m], false))
                   else Transition(recorded, StepOutcome([notice, m], true))
  {
  }

  /**
   * `previous_report` is always a dict, so a report that is not a dict is
   * never taken for the previous one: it reaches `parse_status`, which fails
   * on it before anything is sent.
   */
  lemma NonDictReportRejected(s: State, input: Inputs, response: Json)
    requires Consistent(s)
    requires GetApiAnswer(input.http) == Ok(response) && CheckResponse(response).Ok?
    requires !LatestReport(response).JObject?
    ensures TryBlock(s, input) == Attempt(s, [], Some(ReportNotADict(LatestReport(response))))
  {
  }

  /**
   * A failure that recurs cycle after cycle is reported once (and not at all
   * when it was the last failure reported), whether or not the messenger
   * delivers later copies; the cursor and the recorded report stay where they
   * were. Only a failed first report ends the loop, which then keeps the old
   * `previous_message`.
   */
  lemma {:induction false} RecurringFailureReportedOnce(s: State, script: seq<Inputs>, e: Error)
    requires forall i :: 0 <= i < |script| ==> FailsBeforeNotifying(s.previousReport, script[i], e)
    ensures var t, m := Run(s, script), FailureReport(e);
            && t.outcome.halted == (script != [] && s.previousMessage != m && !script[0].reportDelivered)
            && t.outcome.sent == (if script == [] || s.previousMessage == m then [] else [m])
            && t.state.currentTimestamp == s.currentTimestamp
            && t.state.previousReport == s.previousReport
            && t.state.previousMessage == (if script == [] || t.outcome.halted then s.previousMessage else m)
    decreases |script|
  {
    if script != [] {
      var m := FailureReport(e);
      RecurringFailureStep(s, script, e);
      if m == s.previousMessage || script[0].reportDelivered {
        RecurringFailureReportedOnce(s.(previousMessage := m), script[1..], e);
      }
    }
  }

  /** The first of a run of recurring failures, and what it leaves for the rest. */
  lemma RecurringFailureStep(s: State, script: seq<Inputs>, e: Error)
    requires script != []
    requires forall i :: 0 <= i < |script| ==> FailsBeforeNotifying(s.previousReport, script[i], e)
    ensures var m := FailureReport(e);
            Run(s, script) ==
              if m == s.previousMessage then Prepend([], Run(s, script[1..]))
              else if script[0].reportDelivered then Prepend([m], Run(s.(previousMessage := m), script[1..]))
              else Transition(s, StepOutcome([m], true))
    ensures var rest := script[1..];
            forall i :: 0 <= i < |rest| ==> FailsBeforeNotifying(s.previousReport, rest[i], e)
  {
    EarlyFailureCycle(s, script[0], e);
    RunUnfold(s, script);
    var rest := script[1..];
    forall i | 0 <= i < |rest|
      ensures FailsBeforeNotifying(s.previousReport, rest[i], e)
    {
      assert rest[i] == script[i + 1];
    }
  }

  // ---------------------------------------------------------------------
  // Worked cases.

  const SAMPLE_HOMEWORK := JObject([
    Field("homework_name", JStr("X")),
    Field("status", JStr("approved")),
    Field("date_updated", JStr("2023-11-14T22:13:20Z"))])

  const SAMPLE_RESPONSE := JObject([
    Field("current_date", JInt(1700000000)),
    Field("homeworks", JArray([SAMPLE_HOMEWORK]))])

  /** The first cycle on an approved homework sends its notification and moves the cursor to its timestamp. */
  lemma ApprovedHomeworkAnnounced(input: Inputs)
    requires input.http == Reply(200, Decoded(SAMPLE_RESPONSE))
    requires input.statusDelivered && input.stamp == Parsed(1700000000)
    ensures Cycle(INITIAL, input) == Transition(
              State(1700000000, SAMPLE_HOMEWORK, ""),
              StepOutcome([Notification("X", UPDATE_MESSAGES[APPROVED])], false))
  {
    assert Get(SAMPLE_RESPONSE.fields, "current_date") == JInt(1700000000);
    assert Get(SAMPLE_RESPONSE.fields, "homeworks") == JArray([SAMPLE_HOMEWORK]);
    assert CheckResponse(SAMPLE_RESPONSE) == Ok([SAMPLE_HOMEWORK]);
    assert Get(SAMPLE_HOMEWORK.fields, "status") == JStr(APPROVED);
    assert Get(SAMPLE_HOMEWORK.fields, "homework_name") == JStr("X");
    assert ParseStatus(SAMPLE_HOMEWORK) == Ok(Notification("X", UPDATE_MESSAGES[APPROVED]));
    assert !PyEq(JObject([]), SAMPLE_HOMEWORK) by {
      assert SAMPLE_HOMEWORK.fields[0] in SAMPLE_HOMEWORK.fields;
      assert "homework_name" in Keys(SAMPLE_HOMEWORK.fields);
    }
    assert GetApiAnswer(input.http) == Ok(SAMPLE_RESPONSE);
    assert TryBlock(INITIAL, input) == Attempt(State(1700000000, SAMPLE_HOMEWORK, ""),
                                               [Notification("X", UPDATE_MESSAGES[APPROVED])], None);
  }

  const UNKNOWN_HOMEWORK := JObject([
    Field("homework_name", JStr("X")),
    Field("status", JStr("unknown"))])

  const UNKNOWN_RESPONSE := JObject([
    Field("current_date", JInt(1700000000)),
    Field("homeworks", JArray([UNKNOWN_HOMEWORK]))])

  /** A homework whose status the catalog does not know is not announced; the failure is reported instead. */
  lemma UnknownStatusReported(input: Inputs)
    requires input.http == Reply(200, Decoded(UNKNOWN_RESPONSE)) && input.reportDelivered
    ensures Cycle(INITIAL, input) == Transition(
              INITIAL.(previousMessage := FailureReport(WrongStatus)),
              StepOutcome([FailureReport(WrongStatus)], false))
  {
    assert Get(UNKNOWN_RESPONSE.fields, "current_date") == JInt(1700000000);
    assert Get(UNKNOWN_RESPONSE.fields, "homeworks") == JArray([UNKNOWN_HOMEWORK]);
    assert CheckResponse(UNKNOWN_RESPONSE) == Ok([UNKNOWN_HOMEWORK]);
    assert Get(UNKNOWN_HOMEWORK.fields, "status") == JStr("unknown");
    assert Get(UNKNOWN_HOMEWORK.fields, "homework_name") == JStr("X");
    assert ParseStatus(UNKNOWN_HOMEWORK) == Err(WrongStatus);
    assert !PyEq(JObject([]), UNKNOWN_HOMEWORK) by {
      assert UNKNOWN_HOMEWORK.fields[0] in UNKNOWN_HOMEWORK.fields;
      assert "homework_name" in Keys(UNKNOWN_HOMEWORK.fields);
    }
    assert GetApiAnswer(input.http) == Ok(UNKNOWN_RESPONSE);
    assert TryBlock(INITIAL, input) == Attempt(INITIAL, [], Some(WrongStatus));
  }

  /** An empty dict fails on `current_date` and is reported once, the cursor untouched. */
  lemma EmptyPayloadReported(s: State, input: Inputs)
    requires input.http == Reply(200, Decoded(JObject([]))) && input.reportDelivered
    requires s.previousMessage != FailureReport(MissingResponseKey("current_date"))
    ensures Cycle(s, input) == Transition(
              s.(previousMessage := FailureReport(MissingResponseKey("current_date"))),
              StepOutcome([FailureReport(MissingResponseKey("current_date"))], false))
  {
  }

  /** An empty `homeworks` list is rejected as a missing key, not as an empty list. */
  lemma EmptyHomeworksIsMissingKey()
    ensures CheckResponse(JObject([Field("current_date", JInt(1)), Field("homeworks", JArray([]))]))
            == Err(MissingResponseKey("homeworks"))
  {
  }

  /** A 404 is reported with a text no other status code produces. */
  lemma NotFoundReportDiffers(code: int)
    ensures FailureReport(EndpointUnavailable) != FailureReport(BadStatus(code))
  {
  }

  /** Two different bad status codes give two different reports, so a change of code is reported again. */
  lemma BadStatusReportsDiffer(a: int, b: int)
    ensures FailureReport(BadStatus(a)) == FailureReport(BadStatus(b)) ==> a == b
  {
    if FailureReport(BadStatus(a)) == FailureReport(BadStatus(b)) {
      SameFrameSameMiddle(FAILURE_PREFIX, BAD_STATUS_TEXT, IntStr(a), IntStr(b), ".");
      IntStrInjective(a, b);
    }
  }

  /**
   * A payload of the wrong type is inserted with `str()`, so a string and the
   * value it spells give the same report: such a change is not reported again.
   */
  lemma TopLevelPayloadsMayShareReport()
    ensures FailureReport(ResponseNotADict(JStr("None"))) == FailureReport(ResponseNotADict(JNull))
    ensures FailureReport(HomeworksNotAList(JStr("1"))) == FailureReport(HomeworksNotAList(JInt(1)))
  {
    assert Str(JInt(1)) == IntStr(1) == "1";
  }

  /** A string nested in a non-dict payload is inserted with `repr`, so a changed string is reported again. */
  lemma NestedStringReportsDiffer(a: string, b: string)
    ensures FailureReport(ResponseNotADict(JArray([JStr(a)]))) == FailureReport(ResponseNotADict(JArray([JStr(b)])))
            ==> a == b
  {
    if FailureReport(ResponseNotADict(JArray([JStr(a)]))) == FailureReport(ResponseNotADict(JArray([JStr(b)]))) {
      SameNotADictReportSameText(JArray([JStr(a)]), JArray([JStr(b)]));
      SingletonRepr(a);
      SingletonRepr(b);
      SameFrameSameMiddle([], "[", StrRepr(a), StrRepr(b), "]");
      StrReprInjective(a, b);
    }
  }

  /** Equal not-a-dict reports insert equal text for the payload. */
  lemma SameNotADictReportSameText(x: Json, y: Json)
    requires FailureReport(ResponseNotADict(x)) == FailureReport(ResponseNotADict(y))
    ensures Str(x) == Str(y)
  {
    var lead := "Ответ сервиса не является словарем. Ответ сервиса ";
    SameFrameSameMiddle(FAILURE_PREFIX, lead, Str(x), Str(y), ".");
  }

  lemma SingletonRepr(a: string)
    ensures Str(JArray([JStr(a)])) == [] + (("[" + StrRepr(a)) + "]")
  {
    var parts := seq(1, i requires 0 <= i < 1 => Repr([JStr(a)][i]));
    assert parts == [StrRepr(a)];
  }

  lemma SameFrameSameMiddle(p: string, l: string, x: string, y: string, tail: string)
    requires p + ((l + x) + tail) == p + ((l + y) + tail)
    ensures x == y
  {
    var t := p + ((l + x) + tail);
    assert |x| == |y|;
    assert x == t[|p| + |l|..|p| + |l| + |x|];
    assert y == t[|p| + |l|..|p| + |l| + |y|];
  }
}
