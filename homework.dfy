/**
 The stages of one poll of the homework-status bot (homework.py): the
 start-up check of the three credentials, delivery of a Telegram message,
 interpretation of the API answer, validation of its shape, and rendering
 of the status of one homework record. The HTTP request and the Telegram
 call themselves are outside the model: their outcomes are parameters.
 */
module Homework {
  import opened PyJson
  import opened Exceptions
  import Decimal

  /** `HTTPStatus.OK`, the only status code the API answer is accepted with. */
  const HTTP_OK := 200

  /** `HOMEWORK_VERDICTS`: review status code to verdict sentence. */
  const VERDICTS: map<string, string> := map[
    "approved" := "Работа проверена: ревьюеру всё понравилось. Ура!",
    "reviewing" := "Работа взята на проверку ревьюером.",
    "rejected" := "Работа проверена: у ревьюера есть замечания."
  ]

  const TOKENS_TEXT := "Отсутствует обязательная переменная окружения. Проверьте логи."
  const NO_NAME_TEXT := "Переменная homework_name отсутствует"
  const UNEXPECTED_STATUS_TEXT := "Неожиданный status"

  // ---------------------------------------------------------------------
  // check_tokens

  /** The `tokens` dict of `check_tokens`, in its insertion order. */
  function Tokens(chatId: Option<string>, telegramToken: Option<string>, practicumToken: Option<string>)
    : seq<(string, Option<string>)>
  {
    [("TELEGRAM_CHAT_ID", chatId), ("TELEGRAM_TOKEN", telegramToken), ("PRACTICUM_TOKEN", practicumToken)]
  }

  /** The names whose value is `None`, in order: one critical log line each. */
  function MissingNames(tokens: seq<(string, Option<string>)>): seq<string> {
    if tokens == [] then []
    else
      var last := tokens[|tokens| - 1];
      MissingNames(tokens[..|tokens| - 1]) + (if last.1.None? then [last.0] else [])
  }

  /** A name with a value is never reported; a name without one always is. */
  lemma {:induction false} MissingNamesMembership(tokens: seq<(string, Option<string>)>, k: nat)
    requires k < |tokens|
    requires forall i, j :: 0 <= i < j < |tokens| ==> tokens[i].0 != tokens[j].0
    ensures tokens[k].0 in MissingNames(tokens) <==> tokens[k].1.None?
  {
    var n := |tokens| - 1;
    var prefix := tokens[..n];
    if k < n {
      MissingNamesMembership(prefix, k);
      assert prefix[k] == tokens[k];
      assert tokens[n].0 != tokens[k].0;
    } else {
      MissingNamesNames(prefix, tokens[k].0);
    }
  }

  lemma {:induction false} MissingNamesNames(tokens: seq<(string, Option<string>)>, name: string)
    requires forall i :: 0 <= i < |tokens| ==> tokens[i].0 != name
    ensures name !in MissingNames(tokens)
  {
    if tokens != [] {
      MissingNamesNames(tokens[..|tokens| - 1], name);
    }
  }

  /**
   `check_tokens`: visits every credential (it does not stop at the first
   missing one), logs the name of each one that is `None`, and raises
   `TokensException` when there was at least one. An empty string is present.
   */
  method CheckTokens(chatId: Option<string>, telegramToken: Option<string>, practicumToken: Option<string>)
    returns (raised: Option<Exception>, logged: seq<string>)
    ensures raised.Some? <==> chatId.None? || telegramToken.None? || practicumToken.None?
    ensures raised.Some? ==> raised.value == Raise(TokensException, TOKENS_TEXT)
    ensures logged == MissingNames(Tokens(chatId, telegramToken, practicumToken))
    ensures "TELEGRAM_CHAT_ID" in logged <==> chatId.None?
    ensures "TELEGRAM_TOKEN" in logged <==> telegramToken.None?
    ensures "PRACTICUM_TOKEN" in logged <==> practicumToken.None?
  {
    var tokens := Tokens(chatId, telegramToken, practicumToken);
    var problemWithToken := false;
    logged := [];
    for i := 0 to |tokens|
      invariant problemWithToken <==> exists j :: 0 <= j < i && tokens[j].1.None?
      invariant logged == MissingNames(tokens[..i])
    {
      assert tokens[..i + 1][..i] == tokens[..i];
      if tokens[i].1.None? {
        problemWithToken := true;
        logged := logged + [tokens[i].0];
      }
    }
    assert tokens[..|tokens|] == tokens;
    MissingNamesMembership(tokens, 0);
    MissingNamesMembership(tokens, 1);
    MissingNamesMembership(tokens, 2);
    if problemWithToken {
      raised := Some(Raise(TokensException, TOKENS_TEXT));
    } else {
      raised := None;
    }
  }

  // ---------------------------------------------------------------------
  // send_message

  /** What `bot.send_message` did: delivered, raised `ApiException`, or raised anything else. */
  datatype Delivery = Delivered | ApiRejected(reason: string) | OtherFailure(reason: string)

  /**
   `send_message`: reports delivery as a boolean and never raises; the
   `return` in `finally` swallows even exceptions other than `ApiException`.
   */
  method SendMessage(message: string, delivery: Delivery) returns (messageSent: bool)
    ensures messageSent <==> delivery == Delivered
  {
    messageSent := false;
    match delivery {
      case Delivered =>
        messageSent := true;
      case ApiRejected(_) =>
      case OtherFailure(_) =>
    }
  }

  // ---------------------------------------------------------------------
  // get_api_answer

  /** The body of an HTTP answer: decodable JSON, or text `response.json()` rejects. */
  datatype Body = Parsed(json: Json) | Undecodable(reason: string)

  /** What `requests.get` produced: a `RequestException`, or an answer. */
  datatype HttpOutcome = RequestFailed(cause: string) | Answered(statusCode: int, body: Body)

  function StatusCodeText(code: int): string {
    "Код ответа API " + Decimal.IntToString(code)
  }

  /**
   `get_api_answer` past the request itself: a transport failure and a
   status other than 200 become `APIAnswerException`; an undecodable body
   lets the decoder's error through.
   */
  function GetApiAnswer(outcome: HttpOutcome): (r: Result<Json>)
    ensures r.Ok? <==> outcome.Answered? && outcome.statusCode == HTTP_OK && outcome.body.Parsed?
    ensures r.Ok? ==> r.value == outcome.body.json
    ensures outcome.RequestFailed? ==> r.Err? && r.error.cls == APIAnswerException
    ensures outcome.Answered? && outcome.statusCode != HTTP_OK ==>
              r == Err(Raise(APIAnswerException, StatusCodeText(outcome.statusCode)))
  {
    match outcome
    case RequestFailed(cause) =>
      Err(Raise(APIAnswerException,
                "Проблема с доступом в эндпоит. " + cause + " Программа принудительно остановлена."))
    case Answered(code, body) =>
      if code != HTTP_OK then Err(Raise(APIAnswerException, StatusCodeText(code)))
      else match body
        case Parsed(json) => Ok(json)
        case Undecodable(reason) => Err(Raise(JSONDecodeError, reason))
  }

  /** Two different status codes give two different error texts, so each is reported anew. */
  lemma StatusCodeTextsDistinct(c1: int, c2: int)
    requires c1 != c2
    ensures StatusCodeText(c1) != StatusCodeText(c2)
  {
    var p := "Код ответа API ";
    Decimal.IntToStringInjective(c1, c2);
    assert StatusCodeText(c1)[|p|..] == Decimal.IntToString(c1);
    assert StatusCodeText(c2)[|p|..] == Decimal.IntToString(c2);
  }

  // ---------------------------------------------------------------------
  // check_response

  /**
   `check_response`: the answer must be a dict, hold the key `homeworks`,
   and that value must be a list, checked in this order; the list is
   returned as it is, and an empty list is a success. The missing-key
   branch names `exeptions.ApiResponseException`, which the exceptions
   module does not define, so it raises `AttributeError`.
   */
  function CheckResponse(response: Json): (r: Result<seq<Json>>)
    ensures r.Ok? <==> response.JObject? && "homeworks" in response.fields && response.fields["homeworks"].JList?
    ensures r.Ok? ==> r.value == response.fields["homeworks"].items
    ensures !response.JObject? ==> r.Err? && r.error.cls == TypeError
    ensures response.JObject? && "homeworks" !in response.fields ==> r.Err? && r.error.cls == AttributeError
    ensures response.JObject? && "homeworks" in response.fields && !response.fields["homeworks"].JList? ==>
              r.Err? && r.error.cls == TypeError
  {
    if !response.JObject? then
      Err(Raise(TypeError, "Передан неверный тип данный: <class '" + TypeName(response) + "'>. Ожидаемый тип: dict"))
    else if "homeworks" !in response.fields then
      Err(Raise(AttributeError, "module 'exeptions' has no attribute 'ApiResponseException'"))
    else
      var homeworks := response.fields["homeworks"];
      if !homeworks.JList? then Err(Raise(TypeError, "Передан неверный тип данный"))
      else Ok(homeworks.items)
  }

  // ---------------------------------------------------------------------
  // parse_status

  /** Whether `key` occurs as a contiguous part of `s`. */
  function HasSubstring(s: string, key: string): bool {
    (|key| <= |s| && s[..|key|] == key) || (|s| > 0 && HasSubstring(s[1..], key))
  }

  /** Python's `key in container` for a string `key`. */
  function Contains(container: Json, key: string): Result<bool> {
    match container
    case JObject(fields) => Ok(key in fields)
    case JList(items) => Ok(JStr(key) in items)
    case JStr(s) => Ok(HasSubstring(s, key))
    case _ => Err(Raise(TypeError, "argument of type '" + TypeName(container) + "' is not iterable"))
  }

  /** Python's `container[key]` for a string `key`. */
  function GetItem(container: Json, key: string): Result<Json> {
    match container
    case JObject(fields) => if key in fields then Ok(fields[key]) else Err(Raise(KeyError, "'" + key + "'"))
    case JList(_) => Err(Raise(TypeError, "list indices must be integers or slices, not str"))
    case JStr(_) => Err(Raise(TypeError, "string indices must be integers, not 'str'"))
    case _ => Err(Raise(TypeError, "'" + TypeName(container) + "' object is not subscriptable"))
  }

  /** Python's `status in HOMEWORK_VERDICTS`. */
  function IsKnownStatus(status: Json): (r: Result<bool>)
    ensures r == Ok(true) <==> status.JStr? && status.s in VERDICTS
  {
    match status
    case JStr(s) => Ok(s in VERDICTS)
    case JList(_) => Err(Raise(TypeError, "unhashable type: 'list'"))
    case JObject(_) => Err(Raise(TypeError, "unhashable type: 'dict'"))
    case _ => Ok(false)
  }

  /** A record `parse_status` accepts: a dict with a name and a known status. */
  predicate WellFormedRecord(homework: Json) {
    && homework.JObject?
    && "homework_name" in homework.fields
    && "status" in homework.fields
    && homework.fields["status"].JStr?
    && homework.fields["status"].s in VERDICTS
  }

  /**
   `parse_status`: succeeds exactly on well-formed records and then renders
   the fixed template with the record's name and the verdict of its status;
   a dict record that is not well formed raises `ParseStatusException` or,
   for a list or dict status, `TypeError`.
   */
  function ParseStatus(homework: Json): (r: Result<string>)
    ensures r.Ok? <==> WellFormedRecord(homework)
    ensures r.Ok? ==>
              r.value == "Изменился статус проверки работы \"" + Str(homework.fields["homework_name"]) + "\". "
                         + VERDICTS[homework.fields["status"].s]
    ensures r.Err? ==> r.error.cls in {ParseStatusException, TypeError}
  {
    match Contains(homework, "homework_name")
    case Err(e) => Err(e)
    case Ok(hasName) =>
      if !hasName then Err(Raise(ParseStatusException, NO_NAME_TEXT))
      else match Contains(homework, "status")
      case Err(e) => Err(e)
      case Ok(hasStatus) =>
        if !hasStatus then Err(Raise(ParseStatusException, NO_NAME_TEXT))
        else match GetItem(homework, "status")
        case Err(e) => Err(e)
        case Ok(status) =>
          match IsKnownStatus(status)
          case Err(e) => Err(e)
          case Ok(known) =>
            if !known then Err(Raise(ParseStatusException, UNEXPECTED_STATUS_TEXT))
            else match GetItem(homework, "homework_name")
            case Err(e) => Err(e)
            case Ok(name) =>
              var verdict := VERDICTS[status.s];
              Ok("Изменился статус проверки работы \"" + Str(name) + "\". " + verdict)
  }

  /** On a dict record, the three reasons `parse_status` gives for failing are exactly its failures. */
  lemma ParseStatusFailsOnDict(fields: map<string, Json>)
    ensures ParseStatus(JObject(fields)).Err? <==>
              || "homework_name" !in fields
              || "status" !in fields
              || !(fields["status"].JStr? && fields["status"].s in VERDICTS)
    ensures "homework_name" !in fields || "status" !in fields ==>
              ParseStatus(JObject(fields)) == Err(Raise(ParseStatusException, NO_NAME_TEXT))
  {
  }

  /** The verdict sentences are pairwise different. */
  lemma VerdictsDistinct(s1: string, s2: string)
    requires s1 in VERDICTS && s2 in VERDICTS && s1 != s2
    ensures VERDICTS[s1] != VERDICTS[s2]
  {
  }

  /**
   The rendered text determines the status: records with the same name but
   different statuses are never reported with the same text.
   */
  lemma RenderedTextIdentifiesStatus(name: Json, s1: string, s2: string)
    requires s1 in VERDICTS && s2 in VERDICTS && s1 != s2
    ensures ParseStatus(JObject(map["homework_name" := name, "status" := JStr(s1)]))
         != ParseStatus(JObject(map["homework_name" := name, "status" := JStr(s2)]))
  {
  }
}
