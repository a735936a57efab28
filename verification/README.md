# Homework-status bot: a verified model of its decision logic

The bot (`homework.py`) polls the Practicum homework API every ten minutes,
takes the most recent submission from the answer, turns its review status
into a sentence for the student, and sends it to a Telegram chat — but only
when the sentence differs from the last one sent. Failures anywhere in that
pipeline become an error message `Сбой в работе программы: <error>`, which is
deduplicated the same way against the last error sent.

This project models the pure decisions of that loop in Dafny and proves what
they do:

- `PyJson` — the values the JSON decoder yields (`None`, bools, ints,
  strings, lists, dicts in insertion order, where a repeated key keeps its
  last value) and the Python operations the bot
  applies to them: `dict.get`, `v[0]`, `v[key]`, `key in v` and `str(v)`.
  Each returns its value or the exception Python raises.
- `Homework` — the verdict table (`HOMEWORK_VERDICTS`), `check_tokens`,
  `check_response` and `parse_status`, each written step by step as the code
  runs, with contracts that characterise every outcome.
- `Poller` — one pass of the loop (`Iteration`), the two-register
  deduplication (`Step`), runs of passes (`Run`), the loop itself
  (`PollLoop`) and start-up (`Launch`).
- `Wrappers` — `Option` and `Result`.

Behaviour modelled as the code has it, including its quirks:

- `check_response` indexes `homeworks[0]` before testing that `homeworks` is
  a list. So an empty list passes both guards and yields `None`. A non-empty
  string yields its first character, which `parse_status` then rejects with
  the missing `homework_name` KeyError. An absent key, `null`, a number, a bool,
  a dict or an empty string is rejected as "not a list".
- `parse_status` only tests that the two fields are present, using Python's
  `in`. An empty name is accepted. A string that contains both field names
  gets past the tests and then fails with `UnboundLocalError`, because the
  `status` variable was never assigned. `None` (the empty-list case) fails at
  the first `in` with `TypeError`.
- The request timestamp is taken once before the loop and reused on every
  pass.
- A success never clears the error register. A failure that recurs after
  successes is therefore not reported again.

Exception texts raised by the interpreter use the wording of CPython 3.12.
`str()` of a `KeyError` is the repr of its argument, so the two "missing
field" errors reach the chat in single quotes.

## Model

| member | source | states |
|---|---|---|
| Homework.CheckTokens | homework.py:28-34 | start-up is allowed exactly when all three settings are set; an empty string counts as set |
| Homework.StatusMessage | homework.py:90-93 | the status message is the fixed opening, the name, a closing quote with a full stop and space, then the verdict |
| Homework.CheckResponse | homework.py:62-74 | a non-dict answer raises TypeError "не является словарём"; a non-empty list gives its first element unchanged; an empty list gives None without an error; a non-empty string gives its first character; every other `homeworks` value, absent included, raises TypeError "не является списком" |
| Homework.ParseStatus | homework.py:77-99 | a non-container raises TypeError at the first `in`; when `homework_name` is not `in` the value (dict, list or string alike) KeyError for it is raised before `status` is looked at; when only `status` is missing its KeyError is raised; success happens exactly for a dict with both fields and a status from the verdict table, and the text is then `Изменился статус проверки работы "<name>". <verdict>`; any other hashable status raises `Неизвестный статус: <status>`; a list or dict status raises TypeError; a string or list that passes both `in` tests raises UnboundLocalError |
| Homework.VerdictFor | homework.py:15-19 | the verdict table lookup succeeds exactly for the status codes approved, reviewing and rejected and yields that code's verdict; a list or dict raises TypeError, any other value KeyError |
| Homework.IsKnownStatus | homework.py:98 | membership in the verdict table is defined exactly for None, bools, numbers and strings, and is true exactly for the strings approved, reviewing and rejected |
| Homework.RejectStatus | homework.py:94-99 | once the verdict lookup has failed, the final test always raises |
| Homework.VerdictEndings | homework.py:15-19 | the three verdict sentences end in three different two-character tails |
| Homework.StatusMessageInjective | homework.py:89-93 | two status messages are equal only when the names and the statuses are equal |
| PyJson.Lookup | homework.py:86-88 | a dict lookup finds a value exactly when the key is present, and the value found is stored under that key |
| PyJson.LookupFindsLast | homework.py:67 | with a repeated key the value of its last entry is found, as the JSON decoder keeps the last |
| PyJson.Get | homework.py:67 | `dict.get` gives None when no entry has the key, and otherwise a value stored under the key |
| PyJson.GetFindsLast | homework.py:67 | with a repeated `homeworks` key, `response.get` gives the value of its last entry |
| PyJson.Index0 | homework.py:68 | `v[0]` succeeds exactly on a non-empty list (its first element) or a non-empty string (its first character) |
| PyJson.Item | homework.py:86-88 | `v[key]` succeeds exactly on a dict holding the key, giving the stored value |
| PyJson.SubstringOccurs | homework.py:81-84 | a string contains a key exactly when the key occurs at some position of it |
| PyJson.In | homework.py:81-84 | `key in v` is defined exactly for strings, lists and dicts; on a dict it is key presence, on a list element membership, on a string occurrence at some position |
| PyJson.NatDigits | homework.py:99 | the decimal digits of a natural number have no leading zero (zero itself is the single digit `0`) and read back as that number |
| PyJson.Decimal | homework.py:99 | `str()` of an int starts with a minus sign exactly when it is negative; every character after the sign is a decimal digit, the first is `0` only for zero and then is the only digit, and the digits read back as the absolute value |
| PyJson.Repr | homework.py:92 | `repr()` of a string is its text between single quotes (escaping left out, see below); of a list it is bracketed and `[]` when empty, of a dict braced and `{}` when empty; of an int its decimal text |
| PyJson.Show | homework.py:92-99 | `str()` substituted into the f-strings gives a string unchanged, None as `None`, bools as `True`/`False`, an int as exactly `str()` of it, lists and dicts bracketed and braced, `[]` and `{}` when empty |
| PyJson.ListShowsElements | homework.py:92-99 | the text of a list-valued name or status shows, inside its brackets, the repr of every element |
| PyJson.DictShowsEntries | homework.py:92-99 | the text of a dict-valued name or status shows, inside its braces, every entry as `'key': ` followed by the value's repr |
| Poller.Iteration | homework.py:115-124 | a pass succeeds exactly when the API answered and both check_response and parse_status succeed; a status message always starts with the fixed template; an API exception becomes the failure text unchanged |
| Poller.IterationCarriesText | homework.py:116-124 | proof helper unfolding `Iteration`: a successful pass carries parse_status's message; a failing pass carries the text of the exception check_response or parse_status raised |
| Poller.ValidSubmissionReported | homework.py:66-93 | for every dict whose `homeworks` list starts with a submission that has a name and a known status, the pass yields that submission's status message |
| Poller.StringHomeworksMissName | homework.py:66-82 | for every dict whose `homeworks` is a non-empty string, the pass fails with the missing `homework_name` KeyError |
| Poller.MessageOf | homework.py:118-124 | a status message is sent as is; an error is sent as `Сбой в работе программы: ` followed by the exception text |
| Poller.Step | homework.py:119-128 | a message is sent exactly when it differs from the last message of its kind; that register then holds it and the other register is unchanged |
| Poller.Run | homework.py:111-129 | after several passes at most one message per pass was sent and each register holds the latest message of its kind |
| Poller.RunNotifiesIffChanged | homework.py:119-128 | a pass sends exactly when its message differs from the latest earlier message of the same kind |
| Poller.LastOfSkipsOtherKind | homework.py:119-128 | passes of one kind leave the latest message of the other kind unchanged |
| Poller.RepeatedOutcomeNotifiesOnce | homework.py:119-128 | a run of identical outcomes sends at most one message, on the first pass |
| Poller.IterationMessageNonEmpty | homework.py:90-93 | every message the loop can send is non-empty |
| Poller.RepeatedAnswerNotifiesOnce | homework.py:111-129 | from start-up, the same API answer received any number of times is sent exactly once |
| Poller.ErrorRepeatAfterSuccessesIsSilent | homework.py:119-128 | a success does not reset the error register, so a failure recurring after successes is not sent again |
| Poller.ChangedStatusIsSentAgain | homework.py:119-121 | of two different status messages in a row, the second is always sent and the first exactly when it differs from the stored status message |
| Poller.StatusChangeIsNotified | homework.py:85-93 | a status message whose name text or status differs from the one just reported is always sent, whatever the registers held |
| Poller.RunSnoc | homework.py:114-129 | proof helper of `PollLoop`: one more pass extends a run by exactly one deduplication step |
| Poller.OutcomesSnoc | homework.py:114-118 | proof helper of `PollLoop`: the outcomes of one more answer are those so far followed by the new pass's outcome |
| Poller.Poll | homework.py:116-128 | proof helper of `PollLoop`: one pass of the loop body yields the pass's outcome and its deduplication step, and the register of its kind then holds its message |
| Poller.PollLoop | homework.py:111-129 | the messages sent and the final registers are exactly those of the deduplicating run from empty registers over the passes' outcomes |
| Poller.Launch | homework.py:102-129 | with a setting missing no request is made and nothing is sent; otherwise the loop runs |
| Poller.EmptyHomeworksFailsInFormatting | homework.py:66-81 | an empty `homeworks` list passes validation as None and the pass then fails with `argument of type 'NoneType' is not iterable` |
| Poller.ReviewingScenario | homework.py:85-93 | a single reviewing submission "proj1" yields the reviewing sentence for "proj1" |
| Poller.ApprovedScenario | homework.py:85-93 | a single approved submission "proj1" yields the approved sentence for "proj1" |
| Poller.UnknownStatusScenario | homework.py:98-99 | status `unknown_x` yields the error message `Сбой в работе программы: Неизвестный статус: unknown_x` |

## Left out

- get_api_answer (homework.py:46-59): HTTP I/O. Its result is a parameter of each pass: a decoded body or the text of the exception it raised. The request timestamp is recorded but has no effect on the answer.
- send_message and telegram.Bot (homework.py:37-43, 108): delivery is external. send_message catches every exception, so sending is modelled as emitting the text, and whether the text reached the chat is not modelled.
- Poller.Launch: constructing `telegram.Bot` at homework.py:108 runs outside the `try` and is assumed never to fail, for every token `check_tokens` accepts, the empty one included; the library that might reject a token is not part of this model.
- load_dotenv / os.getenv (homework.py:3-8): the three settings are parameters of Launch.
- time.time (homework.py:109): the timestamp is a parameter.
- time.sleep and RETRY_PERIOD (homework.py:10, 122, 129): timing is not modelled.
- exit() and logging: process plumbing. The logged texts do not affect behaviour.
- The unbounded loop: a run covers the first |answers| passes.
- JSON numbers with a fraction or exponent: `JNum` holds integers only.
- PyJson.KeyErrorOf: renders a KeyError as its message in single quotes, which is Python's repr only when the message has no single quote or backslash; the messages it is given have neither.
- PyJson.Repr: every string, at top level or inside a list or dict, is put between single quotes with its text unchanged; Python's switch to double quotes for a string containing `'` and its escaping of quotes, backslashes and non-printable characters are not modelled.
- PyJson.Repr: for a list or dict the contract and the lemmas fix the brackets, the empty case and that every element's (or entry's) rendering occurs inside; the order of the elements and the `, ` separators are in the definition but not stated as a property.
- PyJson.Show: a list- or dict-valued name or status is its repr, so it carries the two limits above.
- A dict with a repeated key: lookups take the last entry, as the JSON decoder does, but `Repr` of such a value lists every entry where Python shows one.
- PollLoop: `requests` is built by the loop from the one timestamp, so the fixed `from_date` is a property of how the model is written rather than something derived.
- The exact text of interpreter-raised exceptions follows CPython 3.12 and differs in other versions.
