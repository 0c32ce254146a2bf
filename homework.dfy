/** The decision functions of homework.py: the outcome of the API request,
    the validation of the decoded answer, the status sentence, and the
    credential check. Every exception they raise is an `Err` whose `Failure`
    says which check failed; `Message` gives the exception's text. */
module Homework {
  import opened Wrappers
  import opened PyJson

  /** `HTTPStatus.OK`. */
  const HttpOk := 200

  /** The verdict for each review status the bot knows. */
  const HomeworkStatuses: map<string, string> := map[
    "approved" := "Работа проверена: ревьюеру всё понравилось. Ура!",
    "reviewing" := "Работа взята на проверку ревьюером.",
    "rejected" := "Работа проверена: у ревьюера есть замечания."
  ]

  /** What the network layer hands back for one GET: either `requests` raised
      before a response arrived, or a response with its status code and its
      body decoded as JSON (`None` when the body is not JSON). */
  datatype HttpReply =
    | Unreachable(reason: string)
    | Reply(status: int, body: Option<Json>)

  /** The exceptions raised by the functions of homework.py. */
  datatype Failure =
    | ApiRequest(detail: string)  // get_api_answer: request failed or status was not OK
    | NotJson                     // get_api_answer: body is not JSON
    | NotAMapping(response: Json) // check_response: TypeError
    | MissingHomeworks            // check_response: KeyError
    | HomeworksNotList            // check_response: Exception
    | MissingCurrentDate          // check_response: KeyError
    | MissingName                 // parse_status: KeyError
    | MissingStatus               // parse_status: KeyError
    | UnknownStatus(status: Json) // parse_status: Exception
    | Builtin(error: PyError)     // a TypeError raised by Python itself

  /** `str(exception)`. The `str` of a KeyError is the `repr` of its argument,
      so those texts come out quoted. */
  function Message(f: Failure): (r: string)
    ensures |r| > 0
    ensures f.Builtin? ==> r == PyErrorText(f.error)
  {
    match f
    case ApiRequest(detail) =>
      ApiOpening + detail
    case NotJson => "Преобразование в json не осуществлено"
    case NotAMapping(response) =>
      TypeOpening + Str(response)
    case MissingHomeworks => StrRepr("Ключ homeworks отсутствует")
    case HomeworksNotList => "В ответе API домашки выводятся не списком."
    case MissingCurrentDate => StrRepr("Ключ current_date отсутствует")
    case MissingName => StrRepr("Ключ homework_name отсутствует")
    case MissingStatus => StrRepr("Ключ homework_status отсутствует")
    case UnknownStatus(status) =>
      UnknownOpening + Str(status)
    case Builtin(e) => PyErrorText(e)
  }

  /** `t` is the tail of `r`. */
  predicate EndsWith(r: string, t: string) {
    |t| <= |r| && r[|r| - |t|..] == t
  }

  /** The fixed words before the cause in three exception texts. */
  const ApiOpening := "Ошибка при запросе к API Практикум.Домашка: "
  const TypeOpening := "Некорректный тип данных: "
  const UnknownOpening := "Неизвестный статус домашней работы: "

  lemma EndsWithConcat(a: string, b: string)
    ensures EndsWith(a + b, b)
  {
    assert (a + b)[|a|..] == b;
  }

  /** The text of an exception that carries a cause ends with that cause:
      the error of the request, the rejected answer, the unknown status. */
  lemma MessageNamesCause(detail: string, response: Json, status: Json)
    ensures EndsWith(Message(ApiRequest(detail)), detail)
    ensures EndsWith(Message(NotAMapping(response)), Str(response))
    ensures EndsWith(Message(UnknownStatus(status)), Str(status))
  {
    EndsWithConcat(ApiOpening, detail);
    EndsWithConcat(TypeOpening, Str(response));
    EndsWithConcat(UnknownOpening, Str(status));
  }

  /** The `from_date` sent with a request: the cursor, or the current time
      when the cursor is falsy. */
  function FromDate(cursor: Json, now: int): (r: Json)
    ensures Truthy(cursor) ==> r == cursor
    ensures !Truthy(cursor) ==> r == JInt(now)
  {
    if Truthy(cursor) then cursor else JInt(now)
  }

  /** get_api_answer after the GET: the decoded body of an OK reply, or the
      exception the function raises. */
  function GetApiAnswer(reply: HttpReply): (r: Result<Json, Failure>)
    ensures r.Ok? <==> reply.Reply? && reply.status == HttpOk && reply.body.Some?
    ensures r.Ok? ==> r.value == reply.body.value
    ensures reply.Unreachable? ==> r == Err(ApiRequest(reply.reason))
    ensures reply.Reply? && reply.status != HttpOk ==> r == Err(ApiRequest("Ошибка статуса"))
    ensures reply.Reply? && reply.status == HttpOk && reply.body.None? ==> r == Err(NotJson)
  {
    match reply
    case Unreachable(reason) => Err(ApiRequest(reason))
    case Reply(status, body) =>
      if status != HttpOk then Err(ApiRequest("Ошибка статуса"))
      else if body.None? then Err(NotJson)
      else Ok(body.value)
  }

  /** The shape the bot expects of an API answer: a dict whose `homeworks`
      is a list and which has a `current_date`. */
  predicate IsApiAnswer(response: Json) {
    && response.JObject?
    && HasKey(response.fields, "homeworks")
    && Get(response.fields, "homeworks").value.JArray?
    && HasKey(response.fields, "current_date")
  }

  /** check_response: the checks run in a fixed order and the first one that
      fails decides the exception; an answer that passes them all yields its
      `homeworks` list as it is. */
  function CheckResponse(response: Json): (r: Result<seq<Json>, Failure>)
    ensures r.Ok? <==> IsApiAnswer(response)
    ensures r.Ok? ==> Get(response.fields, "homeworks") == Some(JArray(r.value))
    ensures !response.JObject? ==> r == Err(NotAMapping(response))
    ensures response.JObject? && !HasKey(response.fields, "homeworks") ==>
      r == Err(MissingHomeworks)
    ensures response.JObject? && HasKey(response.fields, "homeworks") &&
            !Get(response.fields, "homeworks").value.JArray? ==>
      r == Err(HomeworksNotList)
    ensures response.JObject? && HasKey(response.fields, "homeworks") &&
            Get(response.fields, "homeworks").value.JArray? &&
            !HasKey(response.fields, "current_date") ==>
      r == Err(MissingCurrentDate)
  {
    if !response.JObject? then Err(NotAMapping(response))
    else if !HasKey(response.fields, "homeworks") then Err(MissingHomeworks)
    else
      var homeworks := Get(response.fields, "homeworks").value;
      if !homeworks.JArray? then Err(HomeworksNotList)
      else if !HasKey(response.fields, "current_date") then Err(MissingCurrentDate)
      else Ok(homeworks.items)
  }

  /** `response['current_date']` of an answer check_response accepted. */
  function CurrentDate(response: Json): Json
    requires IsApiAnswer(response)
  {
    Get(response.fields, "current_date").value
  }

  /** The sentence sent for a homework named `name` with verdict `verdict`. */
  function StatusMessage(name: Json, verdict: string): (r: string)
    ensures |r| == |StatusOpening| + |Str(name)| + 3 + |verdict|
    ensures r[0] == 'И'
    ensures r[..|StatusOpening|] == StatusOpening
    ensures r[|StatusOpening| + |Str(name)|..|StatusOpening| + |Str(name)| + 3] == "\". "
    ensures r[|StatusOpening|..|StatusOpening| + |Str(name)|] == Str(name)
    ensures r[|StatusOpening| - 1] == '"' && r[|StatusOpening| + |Str(name)|] == '"'
    ensures EndsWith(r, verdict)
  {
    StatusOpening + Str(name) + "\". " + verdict
  }

  /** The words before the quoted homework name. */
  const StatusOpening := "Изменился статус проверки работы \""

  /** The lookup `HOMEWORK_STATUSES[status]` with its handler: a status that is
      not in the table is reported by name, except that a list or a dict
      cannot even be tested for membership and raises a TypeError. */
  function Verdict(status: Json): (r: Result<string, Failure>)
    ensures r.Ok? <==> status.JStr? && status.s in HomeworkStatuses
    ensures r.Ok? ==> r.value == HomeworkStatuses[status.s]
    ensures r.Err? && (status.JArray? || status.JObject?) ==>
      r.error == Builtin(Unhashable(status))
    ensures r.Err? && !(status.JArray? || status.JObject?) ==>
      r.error == UnknownStatus(status)
  {
    if status.JStr? && status.s in HomeworkStatuses then Ok(HomeworkStatuses[status.s])
    else if status.JArray? || status.JObject? then Err(Builtin(Unhashable(status)))
    else Err(UnknownStatus(status))
  }

  /** A homework record the way parse_status wants it: a dict with a
      `homework_name` and a `status`. */
  predicate IsRecord(homework: Json) {
    && homework.JObject?
    && HasKey(homework.fields, "homework_name")
    && HasKey(homework.fields, "status")
  }

  /** parse_status: `homework_name` is looked for before `status`, and the
      record is reported by the sentence for its verdict. Python's `in`
      applies to whatever the list element is, so a str or a list can pass
      both tests and fail only when subscripted. */
  function ParseStatus(homework: Json): (r: Result<string, Failure>)
    ensures r.Ok? <==>
      IsRecord(homework) && Verdict(Get(homework.fields, "status").value).Ok?
    ensures r.Ok? ==>
      r.value == StatusMessage(Get(homework.fields, "homework_name").value,
                               Verdict(Get(homework.fields, "status").value).value)
    ensures homework.JObject? && !HasKey(homework.fields, "homework_name") ==>
      r == Err(MissingName)
    ensures homework.JObject? && HasKey(homework.fields, "homework_name") &&
            !HasKey(homework.fields, "status") ==>
      r == Err(MissingStatus)
    ensures IsRecord(homework) && Verdict(Get(homework.fields, "status").value).Err? ==>
      r == Err(Verdict(Get(homework.fields, "status").value).error)
    ensures homework.JNull? || homework.JBool? || homework.JInt? ==>
      r == Err(Builtin(NotIterable(homework)))
    ensures homework.JStr? || homework.JArray? ==> r.Err?
    ensures homework.JStr? && !IsSubstring("homework_name", homework.s) ==>
      r == Err(MissingName)
    ensures homework.JStr? && IsSubstring("homework_name", homework.s) &&
            !IsSubstring("status", homework.s) ==>
      r == Err(MissingStatus)
    ensures homework.JStr? && IsSubstring("homework_name", homework.s) &&
            IsSubstring("status", homework.s) ==>
      r == Err(Builtin(StrIndices))
    ensures homework.JArray? && JStr("homework_name") !in homework.items ==>
      r == Err(MissingName)
    ensures homework.JArray? && JStr("homework_name") in homework.items &&
            JStr("status") !in homework.items ==>
      r == Err(MissingStatus)
    ensures homework.JArray? && JStr("homework_name") in homework.items &&
            JStr("status") in homework.items ==>
      r == Err(Builtin(ListIndices))
  {
    match Contains(homework, "homework_name")
    case Err(e) => Err(Builtin(e))
    case Ok(hasName) =>
      if !hasName then Err(MissingName)
      else if Contains(homework, "status") != Ok(true) then Err(MissingStatus)
      else
        match Subscript(homework, "homework_name")
        case Err(e) => Err(Builtin(e))
        case Ok(name) =>
          var status := Subscript(homework, "status").value;
          match Verdict(status)
          case Err(e) => Err(e)
          case Ok(verdict) => Ok(StatusMessage(name, verdict))
  }

  /** What `os.getenv` returned, as a Python value. */
  function EnvValue(v: Option<string>): Json {
    if v.None? then JNull else JStr(v.value)
  }

  /** Python's `all(xs)`. */
  function All(xs: seq<Json>): bool {
    if xs == [] then true else Truthy(xs[0]) && All(xs[1..])
  }

  /** A credential is present when it is set and not empty. */
  predicate Present(v: Option<string>) {
    v.Some? && v.value != ""
  }

  /** check_tokens: all three credentials are set and none of them is empty. */
  function CheckTokens(practicum: Option<string>, telegram: Option<string>,
                       chatId: Option<string>): (ok: bool)
    ensures ok <==> Present(practicum) && Present(telegram) && Present(chatId)
  {
    var vars := [EnvValue(practicum), EnvValue(telegram), EnvValue(chatId)];
    AllIff(vars);
    assert Truthy(vars[0]) == Present(practicum);
    assert Truthy(vars[1]) == Present(telegram);
    assert Truthy(vars[2]) == Present(chatId);
    All(vars)
  }

  // ---------------------------------------------------------------------------
  // Lemmas
  // ---------------------------------------------------------------------------

  /** `all` holds exactly when every element is truthy. */
  lemma {:induction false} AllIff(xs: seq<Json>)
    ensures All(xs) <==> forall i :: 0 <= i < |xs| ==> Truthy(xs[i])
  {
    if xs != [] {
      AllIff(xs[1..]);
      assert forall i :: 1 <= i < |xs| ==> xs[i] == xs[1..][i - 1];
    }
  }

  /** For each of the three known statuses the sentence is fixed: the
      homework's name in quotes, then that status's verdict. */
  lemma KnownStatusSentence(homework: Json, name: Json, status: string)
    requires homework.JObject?
    requires Get(homework.fields, "homework_name") == Some(name)
    requires Get(homework.fields, "status") == Some(JStr(status))
    requires status in {"approved", "reviewing", "rejected"}
    ensures ParseStatus(homework) == Ok(
      "Изменился статус проверки работы \"" + Str(name) + "\". " + HomeworkStatuses[status])
  {
  }

  /** The verdict table: exactly three statuses, each with its sentence. */
  lemma HomeworkStatusesTable()
    ensures HomeworkStatuses.Keys == {"approved", "reviewing", "rejected"}
    ensures HomeworkStatuses["approved"] == "Работа проверена: ревьюеру всё понравилось. Ура!"
    ensures HomeworkStatuses["reviewing"] == "Работа взята на проверку ревьюером."
    ensures HomeworkStatuses["rejected"] == "Работа проверена: у ревьюера есть замечания."
  {
  }

  /** Two different int statuses give different unknown-status texts, so a
      change from one to the other is reported again. */
  lemma UnknownIntStatusesApart(i: int, j: int)
    requires i != j
    ensures Message(UnknownStatus(JInt(i))) != Message(UnknownStatus(JInt(j)))
  {
    var mi, mj := Message(UnknownStatus(JInt(i))), Message(UnknownStatus(JInt(j)));
    var opening := UnknownOpening;
    if mi == mj {
      assert mi == opening + IntDecimal(i) && mj == opening + IntDecimal(j);
      assert IntDecimal(i) == mi[|opening|..] == IntDecimal(j);
      IntDecimalInjective(i, j);
    }
  }

  /** An unknown status ends the exception's text, as Python prints it. */
  lemma UnknownStatusNamed(homework: Json, status: Json)
    requires IsRecord(homework)
    requires Get(homework.fields, "status") == Some(status)
    requires !status.JArray? && !status.JObject?
    requires !(status.JStr? && status.s in HomeworkStatuses)
    ensures ParseStatus(homework).Err?
    ensures var m := Message(ParseStatus(homework).error);
      |m| >= |Str(status)| && m[|m| - |Str(status)|..] == Str(status)
  {
  }

  /** The worked example: an approved homework named hw1. */
  lemma ApprovedExample()
    ensures ParseStatus(JObject([("homework_name", JStr("hw1")), ("status", JStr("approved"))]))
      == Ok("Изменился статус проверки работы \"" + "hw1" + "\". " +
            "Работа проверена: ревьюеру всё понравилось. Ура!")
  {
    var fields := [("homework_name", JStr("hw1")), ("status", JStr("approved"))];
    assert fields[..1][..0] == [];
    assert Get(fields, "status") == Some(JStr("approved"));
    assert Get(fields, "homework_name") == Some(JStr("hw1"));
    KnownStatusSentence(JObject(fields), JStr("hw1"), "approved");
  }
}
