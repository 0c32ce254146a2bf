# homework_bot: the decision core of a review-status relay

homework.py polls a homework-review API, takes the most recent submission
from the answer, turns its review status into a fixed Russian sentence and
sends that sentence to one Telegram chat. It sends the same text only once
in a row. Errors are reported to the chat the same way. This project models
the decisions the script makes and proves what they guarantee:

- `wrappers.dfy` (module `Wrappers`): `Option` and `Result`. A raised
  exception becomes an `Err`.
- `py_json.dfy` (module `PyJson`): decoded JSON values. It also models the
  Python behaviour the script relies on without stating it: truthiness,
  `in` on a dict, list or str, subscripting with a str key, and
  `str()`/`repr()`, which build every message text.
- `homework.py` becomes `homework.dfy` (module `Homework`). It covers the
  outcome of `get_api_answer`, `check_response`, `parse_status` with the
  `HOMEWORK_STATUSES` table, and `check_tokens`. In the source they also
  log, and `get_api_answer` performs the request. With logging and the
  request taken out, each maps its input to a result or an exception. Here
  each is a Dafny function with a `Failure` per exception it raises.
  `Message` gives the text `str(exception)` would print.
- `relay.dfy` (module `Relay`) models one pass of `main`'s `while True` loop.
  `NextState` is a pure specification over the two loop variables:
  `current_timestamp` (the cursor) and `first_message` (the last text sent).
  `Poller.Step` is the same pass written the way `main` writes it: a class
  whose fields are those two variables. It is proved equal to `NextState`.
  `Run` chains passes. The lemmas about `Run` prove two things. The chat
  never gets the same text twice in a row. A repeated poll result is
  delivered at most once.

Inputs of one step are the environment's answers. They are the HTTP reply
(a transport error, or a status code and the body if it decoded as JSON),
the current time, and whether Telegram refuses the message.

The loop's behaviour is easy to misread at these points. The model does
what the code does:
- An empty homework list sends nothing and leaves the cursor unchanged.
  The cursor is assigned only inside the non-empty branch (homework.py:162-171).
- A repeated status sentence is not sent, but the cursor still moves to
  `current_date` (homework.py:164-169).
- If Telegram refuses a status sentence, neither variable changes. The
  `TelegramError` handler only logs it (homework.py:173-175).
- If Telegram refuses a failure report, the `TelegramError` is raised inside
  the `except Exception` handler. Nothing catches it, so `main` ends. The
  step reports this as `halted` (homework.py:177-184).
- The cursor takes whatever value `current_date` holds. On the next request
  a falsy cursor is replaced by the current time (homework.py:59).

## Model

| member | source | states |
|---|---|---|
| PyJson.Get | homework.py:91 | `response['homeworks']` on a decoded dict: the value under the key, the last one in the document when a key repeats; absent exactly when no member has that key |
| PyJson.Contains | homework.py:111-115 | Python's `key in value`: a key test on a dict, an element test on a list, a substring test on a str, and a TypeError naming the value for None, bool or int |
| PyJson.Subscript | homework.py:117-118 | `value['key']` after `'key' in value` held: the dict's value; a str raises the string-indices TypeError and a list the list-indices TypeError |
| PyJson.NatDecimalRoundTrip | homework.py:127 | a fact about the int printing used in the f-string: the decimal text of a natural number reads back as that number |
| PyJson.EscapeRoundTrip | homework.py:85 | a fact about the `repr` model behind the f-string: the escaping inside quotes loses nothing, because unescaping gives the original text back |
| PyJson.StrReprInjective | homework.py:85 | a fact about the `repr` model behind the f-string: `repr` of two strings is equal only when the strings are equal |
| Homework.FromDate | homework.py:59 | `from_date` is the cursor when the cursor is truthy and the current time otherwise |
| Homework.GetApiAnswer | homework.py:61-74 | the decoded body is returned only for status 200 with a JSON body; a transport error, another status and a non-JSON body each raise their own exception text |
| Homework.CheckResponse | homework.py:84-101 | succeeds exactly on a dict with a `homeworks` list and a `current_date`, and returns that list unchanged; otherwise the first failing check in the order dict, `homeworks` present, list, `current_date` present decides the error |
| Homework.Verdict | homework.py:120-128 | a status in the three-entry table gives its verdict; a list or dict raises the unhashable TypeError; any other value raises the unknown-status error carrying that value |
| Homework.ParseStatus | homework.py:111-128 | succeeds exactly on a dict with both keys whose status is in the table, returning the sentence with the name and verdict; a missing `homework_name` wins over a missing `status`; None, bool and int raise the not-iterable TypeError; a str is tested by substring and a list by element, giving the missing-name or missing-status error, or else the TypeError of subscripting that type |
| Homework.KnownStatusSentence | homework.py:117-123 | for each of `approved`, `reviewing`, `rejected` the result is exactly the quoted name followed by that status's verdict |
| Homework.UnknownStatusNamed | homework.py:125-128 | for a status outside the table, the exception text ends with the status as `str()` prints it |
| Homework.ApprovedExample | homework.py:26-30 | an approved homework named hw1 gives the sentence with hw1 and the approved verdict |
| Homework.AllIff | homework.py:138 | `all(...)` holds exactly when every element is truthy |
| Homework.CheckTokens | homework.py:131-138 | true exactly when all three credentials are set and none of them is empty |
| PyJson.IntDecimalInjective | homework.py:127 | two ints, negative ones included, print as the same decimal text only when they are equal |
| PyJson.StrRepr | homework.py:89 | `repr` of a str is at least two characters long and starts and ends with the quote Python picks for that text |
| PyJson.Repr | homework.py:85 | `repr` of a decoded value is never empty: a str is quoted, an int is its decimal text, a list is bracketed and a dict is braced |
| PyJson.Str | homework.py:123 | `{v}` in an f-string inserts a str as it is and any other value as its non-empty `repr` |
| Homework.Message | homework.py:64-128 | the text of every exception the functions raise is non-empty, and a TypeError raised by Python itself keeps Python's own text |
| Homework.MessageNamesCause | homework.py:73-127 | the texts of the request error, the wrong-type answer and the unknown status each end with their cause as `str()` prints it |
| Homework.StatusMessage | homework.py:123 | the status sentence is the fixed opening words, the homework name, a closing double quote with `. `, and the verdict at the end, with nothing else in between |
| Homework.HomeworkStatusesTable | homework.py:26-30 | the verdict table holds exactly `approved`, `reviewing` and `rejected`, each with its fixed sentence |
| Homework.UnknownIntStatusesApart | homework.py:125-128 | two different int statuses give different unknown-status texts, so a change from one to the other is reported again |
| Relay.FailureText | homework.py:178 | the report of a failure is the fixed opening words followed by exactly the exception's text |
| Relay.Run | homework.py:157-186 | a run of passes delivers no more messages than it has passes, and when it halts some pass had a failed poll that Telegram refused |
| Relay.RunHaltsAtRefusedReport | homework.py:177-184 | a run halts only at a pass it reached, where the poll failed, the failure report differed from the last text sent and so was handed to the chat, and the chat refused it |
| Relay.Boot | homework.py:149-155 | the loop starts only when the credentials are present, with the cursor at the current time and nothing sent yet |
| Relay.PollOf | homework.py:159-171 | an iteration has news exactly when the fetch, the validation and the formatting of the first homework all succeed, and then the cursor candidate is `current_date`; it has nothing to do exactly when the list is empty; a failed iteration carries the exception of the first stage that failed |
| Relay.NextState | homework.py:162-184 | a message is handed over only when it differs from the last one sent; the last-sent text changes only to a delivered message; the cursor moves to `current_date` only on news that was delivered or was a repeat; only a refused failure report ends the process |
| Relay.DeliveredIsLastSent | homework.py:164-166 | what an iteration delivers is the new last-sent text and differs from the old one; when nothing is delivered the last-sent text stays |
| Relay.RunNoRepeats | homework.py:157-184 | over any run the chat never receives the same text twice in a row, and the last-sent variable holds the last text received |
| Relay.RepeatQuiet | homework.py:164-168 | once the last text sent equals what a poll result would send, repeating that result delivers nothing |
| Relay.RepeatDeliversOnce | homework.py:164-168 | the same poll result, repeated any number of times and with any refusals by Telegram, reaches the chat at most once |
| Relay.NewsNeverMatchesFailure | homework.py:178-179 | a status sentence never equals a failure report, so neither suppresses the other |
| Relay.FirstMessageGoesOut | homework.py:155 | with nothing sent yet, the first message an iteration wants to send is always handed to the chat |
| Relay.ExampleIterations | homework.py:159-171 | an approved hw1 with `current_date` 1000 is announced and moves the cursor to 1000; an empty list sends nothing and keeps the cursor |
| Relay.Poller.constructor | homework.py:149-155 | the loop's variables start as the current time and the empty text |
| Relay.Poller.Step | homework.py:159-184 | one pass of the loop, written as `main` writes it, returns the `from_date` it requested and leaves the variables, the handed-over message and the halt flag exactly as `NextState` prescribes; a message handed over always differs from the previous last-sent text |

## Left out

- The HTTP GET (endpoint, `Authorization` header, query string) is not modelled. Its result is an input of the step: a transport error text, or a status code with the body decoded as JSON or not JSON.
- JSON decoding is not modelled, and JSON floats are not represented.
- Telegram is an input: whether `send_message` raises. The texts of `TelegramError`s only reach the log and are not modelled. Creating `telegram.Bot` is not modelled either.
- Logging (`logger.*`, the handler and formatter) is not modelled because it has no effect on behaviour.
- `load_dotenv` and `os.getenv` are not modelled. The three credentials are inputs of `CheckTokens` and `Boot`.
- `sys.exit` is `Boot` returning `None`. `time.time()` is the `now` input. `time.sleep(RETRY_TIME)` and the endless loop are not modelled: `Run` covers any finite number of iterations.
- Python exception classes are not modelled. Only the text of an exception matters to the loop, and `Message` gives it.
- PyJson.Repr: does not escape non-printable characters other than tab, newline and carriage return, which Python prints as `\x`/`\u` escapes. For a dict with a repeated key it prints every member, while Python shows the key once.
- PyJson.PyErrorText: uses CPython 3.10's wording. Python 3.11 and later say "string indices must be integers, not 'str'".
- Homework.Message: the contract does not state that the four KeyError texts are quoted (the `str` of a KeyError is its argument's `repr`). The body builds them with `StrRepr`, and `StrRepr` states the quoting. Proving the clause over those fixed texts costs more than the solver budget allows.
