/**
  The decision logic of the homework-status bot: the verdict table, the
  credential check, validation of the API answer and the rendering of a
  submission's status as the notification text.
 */
module Homework {
  import opened Wrappers
  import opened PyJson

  /** Review status code to the sentence shown to the student. */
  const Verdicts: map<string, string> := map[
    "approved" := "Работа проверена: ревьюеру всё понравилось. Ура!",
    "reviewing" := "Работа взята на проверку ревьюером.",
    "rejected" := "Работа проверена: у ревьюера есть замечания."
  ]

  const NotDictText := "Ответ API по структуре данных не является словарём"
  const NotListText := "Ответ API по ключу \"homeworks\" не является списком"
  const MissingNameText := "Отсутствует значение \"homework_name\""
  const MissingStatusText := "Отсутствует значение \"status\""
  const UnknownStatusPrefix := "Неизвестный статус: "
  const UnboundStatusText := "cannot access local variable 'status' where it is not associated with a value"
  const StatusChangedPrefix := "Изменился статус проверки работы \""

  /**
    The notification announcing that the work `name` now has `verdict`:
    the fixed opening, the name in double quotes, a full stop, the verdict.
   */
  function StatusMessage(name: string, verdict: string): (m: string)
    ensures |m| == |StatusChangedPrefix| + |name| + 3 + |verdict|
    ensures StatusChangedPrefix <= m
    ensures m[|StatusChangedPrefix|..|StatusChangedPrefix| + |name|] == name
    ensures m[|StatusChangedPrefix| + |name|..|StatusChangedPrefix| + |name| + 3] == "\". "
    ensures m[|m| - |verdict|..] == verdict
  {
    StatusChangedPrefix + name + "\". " + verdict
  }

  /** The bot may start only when all three settings are present; an empty value counts as present. */
  function CheckTokens(practicum: Option<string>, telegram: Option<string>, chatId: Option<string>): (ok: bool)
    ensures ok <==> practicum.Some? && telegram.Some? && chatId.Some?
  {
    !(practicum.None? || telegram.None? || chatId.None?)
  }

  /**
    The "latest" submission of an API answer. Indexing is attempted before
    the list guard, so an empty list passes both guards and yields None,
    and a non-empty string yields its first character.
   */
  function CheckResponse(response: Json): (r: Result<Json, PyError>)
    ensures !response.JObj? ==> r == Err(PyError(TypeError, NotDictText))
    ensures response.JObj? ==>
      var homeworks := Get(response.fields, "homeworks");
      && (homeworks.JList? && |homeworks.items| > 0 ==> r == Ok(homeworks.items[0]))
      && (homeworks == JList([]) ==> r == Ok(JNull))
      && (homeworks.JStr? && |homeworks.s| > 0 ==> r == Ok(JStr([homeworks.s[0]])))
      && (!homeworks.JList? && !(homeworks.JStr? && |homeworks.s| > 0) ==>
            r == Err(PyError(TypeError, NotListText)))
  {
    if !response.JObj? then Err(PyError(TypeError, NotDictText))
    else
      var homework := Get(response.fields, "homeworks");
      match Index0(homework)
      case Ok(first) => Ok(first)
      // the indexing error is logged and swallowed; the second dict test
      // that follows the list test can no longer fail
      case Err(_) =>
        if !homework.JList? then Err(PyError(TypeError, NotListText))
        else Ok(JNull)
  }

  /** The exception Python raises when an unhashable value is used as a dict key. */
  function Unhashable(v: Json): PyError
  {
    PyError(TypeError, "unhashable type: '" + TypeName(v) + "'")
  }

  /** `HOMEWORK_VERDICTS[status]` */
  function VerdictFor(status: Json): (r: Result<string, PyError>)
    ensures r.Ok? <==> status.JStr? && status.s in {"approved", "reviewing", "rejected"}
    ensures r.Ok? ==> r.value == Verdicts[status.s]
    ensures status.JList? || status.JObj? ==> r == Err(Unhashable(status))
    ensures (status.JNull? || status.JBool? || status.JNum? || status.JStr?) && r.Err? ==>
      r.error.kind == KeyError
  {
    if status.JList? || status.JObj? then Err(Unhashable(status))
    else if status.JStr? && status.s in Verdicts then Ok(Verdicts[status.s])
    else Err(PyError(KeyError, Repr(status)))
  }

  /** `status in HOMEWORK_VERDICTS` */
  function IsKnownStatus(status: Json): (r: Result<bool, PyError>)
    ensures r.Ok? <==> status.JNull? || status.JBool? || status.JNum? || status.JStr?
    ensures r.Ok? ==> (r.value <==> status.JStr? && status.s in {"approved", "reviewing", "rejected"})
  {
    if status.JList? || status.JObj? then Err(Unhashable(status))
    else Ok(status.JStr? && status.s in Verdicts)
  }

  /** The final test of parse_status, reached after the verdict lookup failed and its error was swallowed. */
  function RejectStatus(status: Json): (r: Result<string, PyError>)
    requires VerdictFor(status).Err?
    ensures r.Err?
  {
    match IsKnownStatus(status)
    case Err(e) => Err(e)
    case Ok(known) =>
      if !known then Err(PyError(PlainException, UnknownStatusPrefix + Show(status)))
      else assert false; Err(PyError(PlainException, ""))
  }

  /** A dict carrying both fields parse_status reads. */
  predicate IsRecord(homework: Json)
  {
    && homework.JObj?
    && Lookup(homework.fields, "homework_name").Some?
    && Lookup(homework.fields, "status").Some?
  }

  /**
    The notification text for one submission. Only the presence of the two
    fields is checked, `homework_name` first; the field tests use Python's
    `in`, which also accepts a string containing the key or a list holding
    it, and raises on a value that is not a container.
   */
  function ParseStatus(homework: Json): (r: Result<string, PyError>)
    ensures !IsContainer(homework) ==>
      r == Err(PyError(TypeError, NotIterableText(TypeName(homework))))
    ensures In("homework_name", homework) == Ok(false) ==> r == Err(KeyErrorOf(MissingNameText))
    ensures In("homework_name", homework) == Ok(true) && In("status", homework) == Ok(false) ==>
      r == Err(KeyErrorOf(MissingStatusText))
    ensures r.Ok? <==> IsRecord(homework) && VerdictFor(Get(homework.fields, "status")).Ok?
    ensures r.Ok? ==>
      r.value == StatusMessage(Show(Get(homework.fields, "homework_name")),
                               Verdicts[Get(homework.fields, "status").s])
    ensures IsRecord(homework) ==>
      var status := Get(homework.fields, "status");
      && (!status.JList? && !status.JObj? && !(status.JStr? && status.s in Verdicts) ==>
            r == Err(PyError(PlainException, UnknownStatusPrefix + Show(status))))
      && (status.JList? || status.JObj? ==> r == Err(Unhashable(status)))
    ensures (homework.JStr? || homework.JList?) && In("homework_name", homework) == Ok(true)
              && In("status", homework) == Ok(true) ==>
      r == Err(PyError(UnboundLocalError, UnboundStatusText))
  {
    match In("homework_name", homework)
    case Err(e) => Err(e)
    case Ok(hasName) =>
      if !hasName then Err(KeyErrorOf(MissingNameText))
      else
        match In("status", homework)
        case Err(e) => Err(e)
        case Ok(hasStatus) =>
          if !hasStatus then Err(KeyErrorOf(MissingStatusText))
          else
            // inside the try block every exception is logged and swallowed,
            // after which the final `status not in` test runs
            match Item(homework, "status")
            case Err(_) => Err(PyError(UnboundLocalError, UnboundStatusText))
            case Ok(status) =>
              match VerdictFor(status)
              case Err(_) => RejectStatus(status)
              case Ok(verdict) =>
                match Item(homework, "homework_name")
                case Err(_) => assert false; Err(PyError(UnboundLocalError, ""))
                case Ok(name) => Ok(StatusMessage(Show(name), verdict))
  }

  /** The last two characters of a verdict tell the three verdicts apart. */
  lemma VerdictEndings(s1: string, s2: string)
    requires s1 in Verdicts && s2 in Verdicts
    ensures |Verdicts[s1]| >= 2
    ensures Verdicts[s1][|Verdicts[s1]| - 2..] == Verdicts[s2][|Verdicts[s2]| - 2..] ==> s1 == s2
  {
  }

  /**
    Different names or different known statuses always give different
    notification texts, so a status change is never mistaken for a repeat.
   */
  lemma StatusMessageInjective(n1: string, s1: string, n2: string, s2: string)
    requires s1 in Verdicts && s2 in Verdicts
    ensures StatusMessage(n1, Verdicts[s1]) == StatusMessage(n2, Verdicts[s2]) ==> n1 == n2 && s1 == s2
  {
    var v1, v2 := Verdicts[s1], Verdicts[s2];
    var m1, m2 := StatusMessage(n1, v1), StatusMessage(n2, v2);
    if m1 == m2 {
      VerdictEndings(s1, s2);
      VerdictEndings(s2, s1);
      assert m1[|m1| - 2..] == v1[|v1| - 2..];
      assert m2[|m2| - 2..] == v2[|v2| - 2..];
      assert s1 == s2;
      var p := |StatusChangedPrefix|;
      assert |n1| == |n2|;
      assert n1 == m1[p..p + |n1|];
      assert n2 == m2[p..p + |n2|];
    }
  }
}
