/**
 The watch loop of `main` (homework.py): each cycle fetches the statuses
 changed since the cursor `timestamp`, reports the first one, advances the
 cursor to the answer's `current_date` once the report was delivered, and
 turns every failure into an error report that is sent only when its text
 differs from the last one (`current_error_message`).

 `Cycle` is the meaning of one iteration as a function of the state and of
 what the outside world did (the API answer and the two Telegram deliveries);
 `Watcher.Step` is the iteration itself on a mutable object; `RunBot` is
 `main` over a finite list of iterations.
 */
module WatchLoop {
  import opened PyJson
  import opened Exceptions
  import opened Homework

  const ERROR_PREFIX := "Сбой в работе программы: "

  /** What the outside world does during one cycle. */
  datatype CycleInput = CycleInput(answer: HttpOutcome, statusDelivery: Delivery, errorDelivery: Delivery)

  /** The two variables `main` carries from one iteration to the next. */
  datatype LoopState = LoopState(timestamp: Json, currentErrorMessage: string)

  /** How the `try` block of one iteration ends: normally, or by raising. */
  datatype TryOutcome =
    | Completed(timestamp: Json, attempts: seq<string>)
    | Raised(attempts: seq<string>, error: Exception)

  /** One iteration: the state after it and the texts passed to `send_message`, in order. */
  datatype CycleResult = CycleResult(state: LoopState, attempts: seq<string>)

  /** The `try` block of `main`. */
  function TryBlock(s: LoopState, input: CycleInput): TryOutcome {
    match GetApiAnswer(input.answer)
    case Err(e) => Raised([], e)
    case Ok(response) =>
      match CheckResponse(response)
      case Err(e) => Raised([], e)
      case Ok(homework) =>
        if homework == [] then Completed(s.timestamp, [])
        else match ParseStatus(homework[0])
        case Err(e) => Raised([], e)
        case Ok(text) =>
          if input.statusDelivery != Delivered then Completed(s.timestamp, [text])
          else
            var currentDate := Get(response.fields, "current_date");
            if Truthy(currentDate) then Completed(currentDate, [text])
            else Raised([text], Raise(EmptyCurrentDateException, s.currentErrorMessage))
  }

  /** One iteration of `while True`: the `try` block, then the `except` branch if it raised. */
  function Cycle(s: LoopState, input: CycleInput): CycleResult {
    match TryBlock(s, input)
    case Completed(timestamp, attempts) => CycleResult(LoopState(timestamp, s.currentErrorMessage), attempts)
    case Raised(attempts, e) =>
      var message := ERROR_PREFIX + e.text;
      if message != s.currentErrorMessage then CycleResult(LoopState(s.timestamp, message), attempts + [message])
      else CycleResult(s, attempts)
  }

  /** The error report of an iteration, if its `try` block raised. */
  function ErrorReport(s: LoopState, input: CycleInput): Option<string> {
    match TryBlock(s, input)
    case Completed(_, _) => None
    case Raised(_, e) => Some(ERROR_PREFIX + e.text)
  }

  // ---------------------------------------------------------------------
  // The mutable loop state

  class Watcher {
    var timestamp: Json
    var currentErrorMessage: string

    function State(): LoopState
      reads this
    {
      LoopState(timestamp, currentErrorMessage)
    }

    /** The state before the first iteration: `timestamp = int(time.time())`, no error reported. */
    constructor (now: int)
      ensures State() == LoopState(JInt(now), "")
    {
      timestamp := JInt(now);
      currentErrorMessage := "";
    }

    /** One iteration of the loop of `main`; the sleep that ends it is not modelled. */
    method Step(input: CycleInput) returns (attempts: seq<string>)
      modifies this
      ensures State() == Cycle(old(State()), input).state
      ensures attempts == Cycle(old(State()), input).attempts
    {
      attempts := [];
      var raised: Option<Exception> := None;
      var answer := GetApiAnswer(input.answer);
      if answer.Err? {
        raised := Some(answer.error);
      } else {
        var response := answer.value;
        var checked := CheckResponse(response);
        if checked.Err? {
          raised := Some(checked.error);
        } else {
          var homework := checked.value;
          if homework != [] {
            var parsed := ParseStatus(homework[0]);
            if parsed.Err? {
              raised := Some(parsed.error);
            } else {
              var sendingMessage := SendMessage(parsed.value, input.statusDelivery);
              attempts := attempts + [parsed.value];
              if sendingMessage {
                var currentDate := Get(response.fields, "current_date");
                if Truthy(currentDate) {
                  timestamp := currentDate;
                } else {
                  raised := Some(Raise(EmptyCurrentDateException, currentErrorMessage));
                }
              }
            }
          }
        }
      }
      if raised.Some? {
        var message := ERROR_PREFIX + raised.value.text;
        if message != currentErrorMessage {
          var delivered := SendMessage(message, input.errorDelivery);
          attempts := attempts + [message];
          currentErrorMessage := message;
        }
      }
    }
  }

  // ---------------------------------------------------------------------
  // main over a finite number of iterations

  datatype RunResult = RunResult(final: LoopState, log: seq<seq<string>>)

  /** The state after the given iterations and, per iteration, the texts it sent. */
  function Run(s: LoopState, inputs: seq<CycleInput>): (r: RunResult)
    ensures |r.log| == |inputs|
  {
    if inputs == [] then RunResult(s, [])
    else
      var before := Run(s, inputs[..|inputs| - 1]);
      var c := Cycle(before.final, inputs[|inputs| - 1]);
      RunResult(c.state, before.log + [c.attempts])
  }

  /** The state before iteration `i`. */
  function StateBefore(s: LoopState, inputs: seq<CycleInput>, i: nat): LoopState
    requires i <= |inputs|
  {
    Run(s, inputs[..i]).final
  }

  /**
   `main`: stops before the loop when a credential is missing; otherwise
   runs the iterations from the initial state.
   */
  method RunBot(chatId: Option<string>, telegramToken: Option<string>, practicumToken: Option<string>,
                now: int, inputs: seq<CycleInput>)
    returns (stopped: Option<Exception>, log: seq<seq<string>>, final: LoopState)
    ensures stopped.Some? <==> chatId.None? || telegramToken.None? || practicumToken.None?
    ensures stopped.Some? ==> stopped.value.cls == TokensException && log == []
    ensures stopped.None? ==> RunResult(final, log) == Run(LoopState(JInt(now), ""), inputs)
  {
    var logged;
    stopped, logged := CheckTokens(chatId, telegramToken, practicumToken);
    log := [];
    final := LoopState(JInt(now), "");
    if stopped.Some? {
      return;
    }
    var w := new Watcher(now);
    for i := 0 to |inputs|
      invariant RunResult(w.State(), log) == Run(LoopState(JInt(now), ""), inputs[..i])
    {
      assert inputs[..i + 1][..i] == inputs[..i];
      var attempts := w.Step(inputs[i]);
      log := log + [attempts];
    }
    assert inputs[..|inputs|] == inputs;
    final := w.State();
  }
}
