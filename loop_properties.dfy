/**
 What the watch loop of `main` promises, stated over `WatchLoop.Cycle` (one
 iteration) and `WatchLoop.Run` (a finite sequence of iterations): when a
 report is sent, when the cursor moves and to what, and how error reports
 are deduplicated.
 */
module LoopProperties {
  import opened PyJson
  import opened Exceptions
  import opened Homework
  import opened WatchLoop

  // ---------------------------------------------------------------------
  // Views of one cycle's input

  /** The validated homework list of the cycle's answer, if fetching and validation succeed. */
  function Homeworks(input: CycleInput): Option<seq<Json>> {
    match GetApiAnswer(input.answer)
    case Err(_) => None
    case Ok(response) =>
      match CheckResponse(response)
      case Err(_) => None
      case Ok(homework) => Some(homework)
  }

  /** The `current_date` field of the cycle's answer, `None` when absent. */
  function CurrentDate(input: CycleInput): Json
    requires Homeworks(input).Some?
  {
    Get(GetApiAnswer(input.answer).value.fields, "current_date")
  }

  /** The status report of the cycle: the first record rendered, if there is one and it parses. */
  function Report(input: CycleInput): Option<string> {
    match Homeworks(input)
    case None => None
    case Some(homework) =>
      if homework == [] then None
      else match ParseStatus(homework[0])
      case Err(_) => None
      case Ok(text) => Some(text)
  }

  /** The cycle's status report exists and Telegram accepted it. */
  predicate ReportDelivered(input: CycleInput) {
    Report(input).Some? && input.statusDelivery == Delivered
  }

  /** The cycle moves the cursor: its report was delivered and its answer carries a truthy `current_date`. */
  predicate Advances(input: CycleInput) {
    ReportDelivered(input) && Truthy(CurrentDate(input))
  }

  // ---------------------------------------------------------------------
  // One cycle

  /** An empty homework list: nothing is sent and neither variable changes. */
  lemma EmptyListIsQuiet(s: LoopState, input: CycleInput)
    requires Homeworks(input) == Some([])
    ensures Cycle(s, input) == CycleResult(s, [])
  {
  }

  /** Only the first record is rendered: the rest of the list never affects a cycle. */
  lemma OnlyFirstRecordMatters(s: LoopState, fields: map<string, Json>, h1: seq<Json>, h2: seq<Json>,
                               statusDelivery: Delivery, errorDelivery: Delivery)
    requires h1 != [] && h2 != [] && h1[0] == h2[0]
    ensures Cycle(s, CycleInput(Answered(HTTP_OK, Parsed(JObject(fields["homeworks" := JList(h1)]))), statusDelivery, errorDelivery))
         == Cycle(s, CycleInput(Answered(HTTP_OK, Parsed(JObject(fields["homeworks" := JList(h2)]))), statusDelivery, errorDelivery))
  {
  }

  /** A cycle with a status report sends it first, whatever happens next. */
  lemma ReportIsSentFirst(s: LoopState, input: CycleInput)
    requires Report(input).Some?
    ensures Cycle(s, input).attempts != [] && Cycle(s, input).attempts[0] == Report(input).value
  {
  }

  /**
   The cursor moves exactly on a cycle whose report was delivered and whose
   answer has a truthy `current_date`, and then becomes that value.
   */
  lemma CursorRule(s: LoopState, input: CycleInput)
    ensures Advances(input) ==> Cycle(s, input).state.timestamp == CurrentDate(input)
    ensures !Advances(input) ==> Cycle(s, input).state.timestamp == s.timestamp
  {
  }

  /** A report Telegram did not accept changes nothing and raises nothing: it is retried next cycle. */
  lemma UndeliveredReportChangesNothing(s: LoopState, input: CycleInput)
    requires Report(input).Some? && input.statusDelivery != Delivered
    ensures ErrorReport(s, input).None?
    ensures Cycle(s, input) == CycleResult(s, [Report(input).value])
  {
  }

  /**
   A delivered report without `current_date` raises `EmptyCurrentDateException`
   whose text is the previous error message; the resulting report is longer
   than the previous one, so it is never suppressed and each such cycle
   sends two messages.
   */
  lemma MissingCurrentDateIsAlwaysReported(s: LoopState, input: CycleInput)
    requires ReportDelivered(input) && !Truthy(CurrentDate(input))
    ensures ErrorReport(s, input) == Some(ERROR_PREFIX + s.currentErrorMessage)
    ensures Cycle(s, input) == CycleResult(LoopState(s.timestamp, ERROR_PREFIX + s.currentErrorMessage),
                                           [Report(input).value, ERROR_PREFIX + s.currentErrorMessage])
  {
  }

  /**
   The `except` branch: the error report is sent exactly when it differs from
   the last one, and afterwards it is the last one, delivered or not. A cycle
   that does not raise leaves the last error message as it was.
   */
  lemma ErrorBranch(s: LoopState, input: CycleInput)
    ensures ErrorReport(s, input).Some? ==>
              && Cycle(s, input).state.currentErrorMessage == ErrorReport(s, input).value
              && Cycle(s, input).attempts ==
                 TryBlock(s, input).attempts
                   + (if ErrorReport(s, input).value != s.currentErrorMessage then [ErrorReport(s, input).value] else [])
    ensures ErrorReport(s, input).None? ==> Cycle(s, input).state.currentErrorMessage == s.currentErrorMessage
  {
  }

  /** Only the missing-`current_date` error follows a send within the same cycle. */
  lemma RaisedAfterSend(s: LoopState, input: CycleInput)
    requires TryBlock(s, input).Raised? && TryBlock(s, input).attempts != []
    ensures TryBlock(s, input).error == Raise(EmptyCurrentDateException, s.currentErrorMessage)
  {
  }

  /** An error already reported is not reported again, and the cycle sends nothing at all. */
  lemma SameErrorIsSilent(s: LoopState, input: CycleInput)
    requires ErrorReport(s, input) == Some(s.currentErrorMessage)
    ensures Cycle(s, input) == CycleResult(s, [])
  {
  }

  // ---------------------------------------------------------------------
  // A sequence of cycles

  /** Iteration `i` of a run starts from `StateBefore(i)`, ends in `StateBefore(i + 1)` and logs what it sent. */
  lemma {:induction false} RunStep(s: LoopState, inputs: seq<CycleInput>, i: nat)
    requires i < |inputs|
    ensures StateBefore(s, inputs, i + 1) == Cycle(StateBefore(s, inputs, i), inputs[i]).state
    ensures Run(s, inputs).log[i] == Cycle(StateBefore(s, inputs, i), inputs[i]).attempts
  {
    var n := |inputs| - 1;
    assert inputs[..i + 1][..i] == inputs[..i];
    if i < n {
      RunStep(s, inputs[..n], i);
      assert inputs[..n][..i] == inputs[..i];
      assert inputs[..n][..i + 1] == inputs[..i + 1];
    } else {
      assert inputs[..n + 1] == inputs;
    }
  }

  /** Two consecutive cycles failing with the same error text: the second sends nothing. */
  lemma RepeatedErrorReportedOnce(s: LoopState, inputs: seq<CycleInput>, i: nat, m: string)
    requires i + 1 < |inputs|
    requires ErrorReport(StateBefore(s, inputs, i), inputs[i]) == Some(m)
    requires ErrorReport(StateBefore(s, inputs, i + 1), inputs[i + 1]) == Some(m)
    ensures Run(s, inputs).log[i + 1] == []
  {
    RunStep(s, inputs, i);
    RunStep(s, inputs, i + 1);
    ErrorBranch(StateBefore(s, inputs, i), inputs[i]);
    SameErrorIsSilent(StateBefore(s, inputs, i + 1), inputs[i + 1]);
  }

  /** Any stretch of cycles failing with one and the same error text sends only in its first cycle. */
  lemma {:induction false} ErrorStretchReportedOnce(s: LoopState, inputs: seq<CycleInput>, i: nat, j: nat, m: string)
    requires i < j < |inputs|
    requires forall k :: i <= k <= j ==> ErrorReport(StateBefore(s, inputs, k), inputs[k]) == Some(m)
    ensures forall k :: i < k <= j ==> Run(s, inputs).log[k] == []
  {
    if j > i + 1 {
      ErrorStretchReportedOnce(s, inputs, i, j - 1, m);
    }
    RepeatedErrorReportedOnce(s, inputs, j - 1, m);
  }

  /** The cursor value set by the last advancing cycle, if any cycle advanced. */
  function LastAdvance(inputs: seq<CycleInput>): Option<Json> {
    if inputs == [] then None
    else if Advances(inputs[|inputs| - 1]) then Some(CurrentDate(inputs[|inputs| - 1]))
    else LastAdvance(inputs[..|inputs| - 1])
  }

  /**
   After a run the cursor is the `current_date` of the last cycle that
   advanced it, or the initial cursor if none did; errors never move it.
   */
  lemma {:induction false} RunCursor(s: LoopState, inputs: seq<CycleInput>)
    ensures Run(s, inputs).final.timestamp == (if LastAdvance(inputs).Some? then LastAdvance(inputs).value else s.timestamp)
  {
    if inputs != [] {
      var n := |inputs| - 1;
      RunCursor(s, inputs[..n]);
      CursorRule(Run(s, inputs[..n]).final, inputs[n]);
    }
  }

  /** Without a delivered status report the cursor never moves. */
  lemma {:induction false} NoDeliveryKeepsCursor(s: LoopState, inputs: seq<CycleInput>)
    requires forall k :: 0 <= k < |inputs| ==> inputs[k].statusDelivery != Delivered
    ensures Run(s, inputs).final.timestamp == s.timestamp
  {
    if inputs != [] {
      var n := |inputs| - 1;
      NoDeliveryKeepsCursor(s, inputs[..n]);
      CursorRule(Run(s, inputs[..n]).final, inputs[n]);
    }
  }

  // ---------------------------------------------------------------------
  // Concrete cycles

  const HW1_APPROVED := JObject(map["homework_name" := JStr("hw1"), "status" := JStr("approved")])

  /** An answer `{"homeworks": [], "current_date": 1000}`: no message, cursor and error unchanged. */
  lemma EmptyAnswerScenario(s: LoopState, d1: Delivery, d2: Delivery)
    ensures Cycle(s, CycleInput(Answered(200, Parsed(JObject(map["homeworks" := JList([]), "current_date" := JInt(1000)]))), d1, d2))
         == CycleResult(s, [])
  {
  }

  /** An approved `hw1` with `current_date` 2000, delivered: the report is sent and the cursor becomes 2000. */
  lemma ApprovedScenario(s: LoopState, d2: Delivery)
    ensures Cycle(s, CycleInput(Answered(200, Parsed(JObject(map["homeworks" := JList([HW1_APPROVED]), "current_date" := JInt(2000)]))), Delivered, d2))
         == CycleResult(LoopState(JInt(2000), s.currentErrorMessage),
                        ["Изменился статус проверки работы \"hw1\". " + "Работа проверена: ревьюеру всё понравилось. Ура!"])
  {
    assert HW1_APPROVED.fields["homework_name"] == JStr("hw1");
    assert HW1_APPROVED.fields["status"] == JStr("approved");
    assert WellFormedRecord(HW1_APPROVED);
    assert "Изменился статус проверки работы \"" + "hw1" + "\". " == "Изменился статус проверки работы \"hw1\". ";
  }

  /** Status 503 twice in a row from a fresh state: one error report, then silence. */
  lemma ServiceUnavailableScenario(now: int, d1: Delivery, d2: Delivery, d3: Delivery, d4: Delivery)
    ensures var s0 := LoopState(JInt(now), "");
            var c1 := Cycle(s0, CycleInput(Answered(503, Undecodable("")), d1, d2));
            var c2 := Cycle(c1.state, CycleInput(Answered(503, Undecodable("")), d3, d4));
            && c1.attempts == ["Сбой в работе программы: Код ответа API 503"]
            && c2.attempts == []
            && c2.state == c1.state
  {
    assert Decimal.IntToString(503) == "503" by {
      assert Decimal.NatToString(5) == "5";
      assert Decimal.NatToString(50) == "50";
      assert Decimal.NatToString(503) == "503";
    }
    assert GetApiAnswer(Answered(503, Undecodable(""))) == Err(Raise(APIAnswerException, "Код ответа API 503"));
    assert ERROR_PREFIX + "Код ответа API 503" == "Сбой в работе программы: Код ответа API 503";
  }

  /** An unknown status: reported as an error, cursor unchanged. */
  lemma UnknownStatusScenario(s: LoopState, d1: Delivery, d2: Delivery)
    requires s.currentErrorMessage == ""
    ensures var record := JObject(map["homework_name" := JStr("hw1"), "status" := JStr("unknown")]);
            Cycle(s, CycleInput(Answered(200, Parsed(JObject(map["homeworks" := JList([record])]))), d1, d2))
            == CycleResult(LoopState(s.timestamp, "Сбой в работе программы: Неожиданный status"),
                           ["Сбой в работе программы: Неожиданный status"])
  {
    var record := JObject(map["homework_name" := JStr("hw1"), "status" := JStr("unknown")]);
    assert ParseStatus(record) == Err(Raise(ParseStatusException, UNEXPECTED_STATUS_TEXT));
    assert ERROR_PREFIX + UNEXPECTED_STATUS_TEXT == "Сбой в работе программы: Неожиданный status";
  }

  /** The cursor is not kept monotone or integral: it takes whatever truthy `current_date` the answer holds. */
  lemma CursorTakesAnyCurrentDate(d2: Delivery)
    ensures Cycle(LoopState(JInt(5000), ""),
                  CycleInput(Answered(200, Parsed(JObject(map["homeworks" := JList([HW1_APPROVED]), "current_date" := JInt(1000)]))), Delivered, d2))
            .state.timestamp == JInt(1000)
    ensures Cycle(LoopState(JInt(5000), ""),
                  CycleInput(Answered(200, Parsed(JObject(map["homeworks" := JList([HW1_APPROVED]), "current_date" := JStr("soon")]))), Delivered, d2))
            .state.timestamp == JStr("soon")
  {
  }
}
