/**
  The polling loop: each pass asks the API for the submissions since a fixed
  time, turns the answer into a status message or an error message, and
  sends it only when it differs from the last message of the same kind.
  The unbounded loop is modelled by its first |answers| passes.
 */
module Poller {
  import opened Wrappers
  import opened PyJson
  import opened Homework

  const ErrorPrefix := "Сбой в работе программы: "

  /** What get_api_answer delivered: the decoded body, or the text of the exception it raised. */
  datatype ApiAnswer = Body(json: Json) | Raised(text: string)

  /** The result of one pass through the try block: a status message, or the text of the exception caught. */
  datatype Outcome = Success(message: string) | Failure(errText: string)

  /** One pass of the try block: fetch, validate, extract the latest submission, format it. */
  function Iteration(answer: ApiAnswer): (o: Outcome)
    ensures answer.Raised? ==> o == Failure(answer.text)
    ensures o.Success? <==>
      && answer.Body?
      && CheckResponse(answer.json).Ok?
      && ParseStatus(CheckResponse(answer.json).value).Ok?
    ensures o.Success? ==> StatusChangedPrefix <= o.message
  {
    match answer
    case Raised(text) => Failure(text)
    case Body(json) =>
      match CheckResponse(json)
      case Err(e) => Failure(e.text)
      case Ok(homework) =>
        match ParseStatus(homework)
        case Err(e) => Failure(e.text)
        case Ok(message) => Success(message)
  }

  /**
    What a pass carries: the message parse_status formatted, or the text of
    the exception that check_response or parse_status raised.
   */
  lemma IterationCarriesText(answer: ApiAnswer)
    ensures Iteration(answer).Success? ==>
      Iteration(answer).message == ParseStatus(CheckResponse(answer.json).value).value
    ensures answer.Body? && CheckResponse(answer.json).Err? ==>
      Iteration(answer) == Failure(CheckResponse(answer.json).error.text)
    ensures answer.Body? && CheckResponse(answer.json).Ok?
              && ParseStatus(CheckResponse(answer.json).value).Err? ==>
      Iteration(answer) == Failure(ParseStatus(CheckResponse(answer.json).value).error.text)
  {
  }

  /** The two messages the loop remembers between passes. */
  datatype State = State(lastVerdict: string, lastError: string)

  /** Both registers start empty. */
  const Fresh := State("", "")

  /** The text the loop sends for an outcome: a status message as is, an error text behind the fixed prefix. */
  function MessageOf(o: Outcome): (m: string)
    ensures o.Success? ==> m == o.message
    ensures o.Failure? ==> ErrorPrefix <= m && m[|ErrorPrefix|..] == o.errText
  {
    match o
    case Success(message) => message
    case Failure(errText) => ErrorPrefix + errText
  }

  /** The register an outcome is compared with. */
  function Stored(s: State, o: Outcome): string
  {
    if o.Success? then s.lastVerdict else s.lastError
  }

  /**
    One pass of the deduplication: the outcome's message is sent exactly
    when it differs from the register of its kind, that register then holds
    it, and the other register is untouched. Sending never fails from the
    loop's point of view, so the register is updated whether or not the
    message reached the chat.
   */
  function Step(s: State, o: Outcome): (r: (State, Option<string>))
    ensures r.1.Some? <==> MessageOf(o) != Stored(s, o)
    ensures r.1.Some? ==> r.1.value == MessageOf(o)
    ensures Stored(r.0, o) == MessageOf(o)
    ensures o.Success? ==> r.0.lastError == s.lastError
    ensures o.Failure? ==> r.0.lastVerdict == s.lastVerdict
  {
    match o
    case Success(message) =>
      if message != s.lastVerdict then (s.(lastVerdict := message), Some(message)) else (s, None)
    case Failure(errText) =>
      var message := ErrorPrefix + errText;
      if message != s.lastError then (s.(lastError := message), Some(message)) else (s, None)
  }

  /**
    The message of the most recent outcome in `os` of the given kind
    (`success` for status messages), or `init` when `os` holds none.
   */
  function LastOf(init: string, os: seq<Outcome>, success: bool): string
  {
    if |os| == 0 then init
    else if os[|os| - 1].Success? == success then MessageOf(os[|os| - 1])
    else LastOf(init, os[..|os| - 1], success)
  }

  /** The registers after a run and the messages sent, in order. */
  datatype RunResult = RunResult(state: State, sent: seq<string>)

  /**
    Several passes in a row. At most one message is sent per pass, and each
    register ends holding the latest message of its kind.
   */
  function Run(s: State, os: seq<Outcome>): (r: RunResult)
    ensures |r.sent| <= |os|
    ensures r.state.lastVerdict == LastOf(s.lastVerdict, os, true)
    ensures r.state.lastError == LastOf(s.lastError, os, false)
  {
    if |os| == 0 then RunResult(s, [])
    else
      var before := Run(s, os[..|os| - 1]);
      var (next, notification) := Step(before.state, os[|os| - 1]);
      RunResult(next, before.sent + (if notification.Some? then [notification.value] else []))
  }

  /**
    Pass `i` of a run sends a message exactly when its message differs from
    the latest earlier message of the same kind (or from the initial
    register when there is none).
   */
  lemma RunNotifiesIffChanged(s: State, os: seq<Outcome>, i: nat)
    requires i < |os|
    ensures
      var changed := MessageOf(os[i]) != LastOf(Stored(s, os[i]), os[..i], os[i].Success?);
      Run(s, os[..i + 1]).sent == Run(s, os[..i]).sent + (if changed then [MessageOf(os[i])] else [])
  {
    assert os[..i + 1][..i] == os[..i];
  }

  /** Outcomes of one kind leave the latest message of the other kind where it was. */
  lemma {:induction false} LastOfSkipsOtherKind(init: string, prefix: seq<Outcome>, middle: seq<Outcome>, success: bool)
    requires forall k :: 0 <= k < |middle| ==> middle[k].Success? != success
    ensures LastOf(init, prefix + middle, success) == LastOf(init, prefix, success)
    decreases |middle|
  {
    if |middle| > 0 {
      var whole := prefix + middle;
      assert whole[|whole| - 1] == middle[|middle| - 1];
      assert whole[..|whole| - 1] == prefix + middle[..|middle| - 1];
      LastOfSkipsOtherKind(init, prefix, middle[..|middle| - 1], success);
    } else {
      assert prefix + middle == prefix;
    }
  }

  /**
    A run of identical outcomes sends at most one message: the first pass
    sends it if it differs from the register, and every later pass is silent.
   */
  lemma {:induction false} RepeatedOutcomeNotifiesOnce(s: State, o: Outcome, n: nat)
    requires n >= 1
    ensures Run(s, seq(n, _ => o)).sent ==
      (if MessageOf(o) != Stored(s, o) then [MessageOf(o)] else [])
  {
    var os := seq(n, _ => o);
    if n > 1 {
      var shorter := seq(n - 1, _ => o);
      RepeatedOutcomeNotifiesOnce(s, o, n - 1);
      assert os == shorter + [o];
      RunSnoc(s, shorter, o);
      var before := Run(s, shorter);
      assert Stored(before.state, o) == MessageOf(o);
    } else {
      assert os == [] + [o];
      RunSnoc(s, [], o);
    }
  }

  /** Every message the loop can send is non-empty, so it always differs from an empty register. */
  lemma IterationMessageNonEmpty(answer: ApiAnswer)
    ensures MessageOf(Iteration(answer)) != ""
  {
  }

  /**
    From start-up, a run of passes that all receive the same API answer
    sends exactly one message, the one for that answer.
   */
  lemma RepeatedAnswerNotifiesOnce(answer: ApiAnswer, n: nat)
    requires n >= 1
    ensures Run(Fresh, seq(n, _ => Iteration(answer))).sent == [MessageOf(Iteration(answer))]
  {
    var o := Iteration(answer);
    assert seq(n, _ => Iteration(answer)) == seq(n, _ => o);
    RepeatedOutcomeNotifiesOnce(Fresh, o, n);
    IterationMessageNonEmpty(answer);
  }

  /**
    A success does not reset the error register: when a failure recurs after
    any number of successes, its second occurrence is not sent again.
   */
  lemma ErrorRepeatAfterSuccessesIsSilent(s: State, errText: string, successes: seq<Outcome>)
    requires forall k :: 0 <= k < |successes| ==> successes[k].Success?
    ensures
      var before := [Failure(errText)] + successes;
      Run(s, before + [Failure(errText)]).sent == Run(s, before).sent
  {
    var before := [Failure(errText)] + successes;
    LastOfSkipsOtherKind(s.lastError, [Failure(errText)], successes, false);
    assert [Failure(errText)][..0] == [];
    assert (before + [Failure(errText)])[..|before|] == before;
  }

  /** Two different status messages in a row are both sent (the first unless it is already stored). */
  lemma ChangedStatusIsSentAgain(s: State, m1: string, m2: string)
    requires m1 != m2
    ensures Run(s, [Success(m1), Success(m2)]).sent == (if m1 != s.lastVerdict then [m1] else []) + [m2]
  {
  }

  /**
    A submission whose name text or status differs from the one just
    reported is always reported again, whatever the registers held before.
   */
  lemma StatusChangeIsNotified(s: State, name1: string, status1: string, name2: string, status2: string)
    requires status1 in Verdicts && status2 in Verdicts
    requires name1 != name2 || status1 != status2
    ensures
      var first := Step(s, Success(StatusMessage(name1, Verdicts[status1])));
      var second := StatusMessage(name2, Verdicts[status2]);
      Step(first.0, Success(second)).1 == Some(second)
  {
    StatusMessageInjective(name1, status1, name2, status2);
  }

  /** The outcomes of the passes that received `answers`. */
  function Outcomes(answers: seq<ApiAnswer>): seq<Outcome>
  {
    seq(|answers|, i requires 0 <= i < |answers| => Iteration(answers[i]))
  }

  /** One more outcome extends a run by exactly one deduplication step. */
  lemma RunSnoc(s: State, os: seq<Outcome>, o: Outcome)
    ensures
      var before := Run(s, os);
      var step := Step(before.state, o);
      Run(s, os + [o]) ==
        RunResult(step.0, before.sent + (if step.1.Some? then [step.1.value] else []))
  {
    assert (os + [o])[..|os|] == os;
  }

  /** The outcomes of one more answer are those so far followed by the new pass's outcome. */
  lemma OutcomesSnoc(answers: seq<ApiAnswer>, i: nat)
    requires i < |answers|
    ensures Outcomes(answers[..i + 1]) == Outcomes(answers[..i]) + [Iteration(answers[i])]
  {
  }

  /** One pass of the loop body: the pass's outcome followed by its deduplication step. */
  method Poll(state: State, answer: ApiAnswer) returns (outcome: Outcome, next: State, notification: Option<string>)
    ensures outcome == Iteration(answer)
    ensures (next, notification) == Step(state, outcome)
  {
    outcome := Iteration(answer);
    var step := Step(state, outcome);
    next, notification := step.0, step.1;
  }

  /**
    The body of main after start-up: the messages sent and the final
    registers are those of the deduplicating run from empty registers.
    `requests` records the `from_date` of each pass's request, which is the
    timestamp taken once before the loop.
   */
  method PollLoop(timestamp: int, answers: seq<ApiAnswer>) returns (requests: seq<int>, sent: seq<string>, state: State)
    ensures |requests| == |answers|
    ensures forall k :: 0 <= k < |requests| ==> requests[k] == timestamp
    ensures |sent| <= |answers|
    ensures RunResult(state, sent) == Run(Fresh, Outcomes(answers))
  {
    ghost var seen: seq<Outcome> := [];
    requests, sent, state := [], [], Fresh;
    var i := 0;
    while i < |answers|
      invariant 0 <= i <= |answers|
      invariant |requests| == i && |seen| == i
      invariant forall k :: 0 <= k < i ==> requests[k] == timestamp
      invariant seen == Outcomes(answers[..i])
      invariant RunResult(state, sent) == Run(Fresh, seen)
    {
      requests := requests + [timestamp];
      var outcome;
      var notification;
      outcome, state, notification := Poll(state, answers[i]);
      if notification.Some? {
        sent := sent + [notification.value];
      }
      RunSnoc(Fresh, seen, outcome);
      OutcomesSnoc(answers, i);
      seen := seen + [outcome];
      i := i + 1;
    }
    assert answers[..i] == answers;
  }

  /**
    main: with a setting missing the bot stops before its first request;
    otherwise it runs the polling loop.
   */
  method Launch(practicum: Option<string>, telegram: Option<string>, chatId: Option<string>,
                timestamp: int, answers: seq<ApiAnswer>)
    returns (started: bool, requests: seq<int>, sent: seq<string>)
    ensures started <==> practicum.Some? && telegram.Some? && chatId.Some?
    ensures !started ==> requests == [] && sent == []
    ensures started ==> |requests| == |answers| && sent == Run(Fresh, Outcomes(answers)).sent
  {
    if !CheckTokens(practicum, telegram, chatId) {
      return false, [], [];
    }
    var state;
    requests, sent, state := PollLoop(timestamp, answers);
    started := true;
  }

  /** An empty `homeworks` list is not rejected by validation; formatting then fails on None. */
  lemma EmptyHomeworksFailsInFormatting(response: Json)
    requires response.JObj? && Get(response.fields, "homeworks") == JList([])
    ensures CheckResponse(response) == Ok(JNull)
    ensures Iteration(Body(response)) == Failure(NotIterableText("NoneType"))
  {
    assert ParseStatus(JNull) == Err(PyError(TypeError, NotIterableText("NoneType")));
  }

  /**
    A dict whose `homeworks` list starts with a well-formed submission with
    a known status makes the pass succeed with that submission's message.
   */
  lemma ValidSubmissionReported(response: Json)
    requires response.JObj?
    requires Get(response.fields, "homeworks").JList?
    requires |Get(response.fields, "homeworks").items| > 0
    requires
      var h := Get(response.fields, "homeworks").items[0];
      IsRecord(h) && Get(h.fields, "status").JStr? && Get(h.fields, "status").s in Verdicts
    ensures
      var h := Get(response.fields, "homeworks").items[0];
      Iteration(Body(response)) ==
        Success(StatusMessage(Show(Get(h.fields, "homework_name")), Verdicts[Get(h.fields, "status").s]))
  {
  }

  /**
    A non-empty string under `homeworks` passes validation as its first
    character, which cannot contain the field name, so the pass fails with
    the missing-name KeyError.
   */
  lemma StringHomeworksMissName(response: Json)
    requires response.JObj?
    requires Get(response.fields, "homeworks").JStr?
    requires |Get(response.fields, "homeworks").s| > 0
    ensures Iteration(Body(response)) == Failure(KeyErrorOf(MissingNameText).text)
  {
  }

  /** The answer body holding one submission with the given name and status. */
  function OneSubmission(name: string, status: string): Json
  {
    JObj([("homeworks", JList([JObj([("homework_name", JStr(name)), ("status", JStr(status))])]))])
  }

  lemma ReviewingScenario()
    ensures Iteration(Body(OneSubmission("proj1", "reviewing"))) ==
      Success("Изменился статус проверки работы \"" + "proj1" + "\". " + "Работа взята на проверку ревьюером.")
  {
  }

  lemma ApprovedScenario()
    ensures Iteration(Body(OneSubmission("proj1", "approved"))) ==
      Success("Изменился статус проверки работы \"" + "proj1" + "\". " + "Работа проверена: ревьюеру всё понравилось. Ура!")
  {
  }

  lemma UnknownStatusScenario()
    ensures MessageOf(Iteration(Body(OneSubmission("proj1", "unknown_x")))) ==
      "Сбой в работе программы: " + "Неизвестный статус: " + "unknown_x"
  {
  }
}
