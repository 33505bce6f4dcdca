/** The interview API route (app/api/interview/answer/route.ts): a POST either
    fetches the next question, or evaluates a submitted answer and then
    returns the next question or, after the fifth answer, the final feedback.
    The request body is whatever JSON the client sent, so its fields are
    JavaScript values, converted as the route's template strings and
    `String(...)` convert them.

    POST returns the handlers' promises without awaiting them, so its
    `catch` sees only what goes wrong before a handler is called: a body
    that is not JSON or is `null`, and an answer that cannot be converted to
    a string. What goes wrong inside a handler rejects the promise POST
    returns instead. */
module AnswerRoute {
  import opened Wrappers
  import opened Text
  import opened Js
  import opened Interview

  /** Answers per session; the final feedback follows the answer that reaches it. */
  const TotalQuestions: nat := 5
  /** Every question the route asks for is of this difficulty. */
  const RouteDifficulty: Difficulty := Medium
  const MissingFieldsError: string := "jobType と companyType は必須です"
  const FailureError: string := "処理に失敗しました"

  /** The JSON object the route sends back. `allQA` echoes the history
      entries as the client sent them, followed by the new entry. */
  datatype Reply =
    | QuestionReply(question: string)
    | Continue(score: real, feedback: string, nextQuestion: string, allQA: seq<JsValue>)
    | Finished(score: real, feedback: string, finalFeedback: string, allQA: seq<JsValue>)
    | ErrorReply(error: string)

  /** What the client gets: a reply of the route, or `Rejected` when the
      promise POST returns rejects, so that the framework answers with its
      own error response and none of the route's JSON. */
  datatype Response = Response(status: nat, reply: Reply) | Rejected

  /** A response together with the completion requests made while producing it. */
  datatype Handled = Handled(response: Response, calls: seq<Request>)

  /** The destructured request body; `None` is an absent property. */
  datatype Body = Body(question: Option<JsValue>, answer: Option<JsValue>, jobType: Option<JsValue>,
                       companyType: Option<JsValue>, previousQA: Option<JsValue>)

  /** The `catch` of POST: a 500 with the route's error text. */
  function Failure(calls: seq<Request>): Handled
  {
    Handled(Response(500, ErrorReply(FailureError)), calls)
  }

  /** A handler's promise rejects. */
  function Rejection(calls: seq<Request>): Handled
  {
    Handled(Rejected, calls)
  }

  /** Destructuring the parsed body: `None` when `request.json()` rejects or
      the body is `null` (destructuring `null` throws a TypeError). */
  function ReadBody(request: Option<JsValue>): (b: Option<Body>)
    ensures b.None? <==> request.None? || request == Some(JNull)
    ensures b.Some? && request.value.JObj? ==>
              var m := request.value.fields;
              b.value.jobType == (if "jobType" in m then Some(m["jobType"]) else None)
              && b.value.companyType == (if "companyType" in m then Some(m["companyType"]) else None)
  {
    match request
    case None => None
    case Some(v) =>
      match (Get(v, "question"), Get(v, "answer"), Get(v, "jobType"), Get(v, "companyType"), Get(v, "previousQA"))
      case (Read(q), Read(a), Read(j), Read(c), Read(p)) => Some(Body(q, a, j, c, p))
      case _ => None
  }

  /** `${v}` inside a template string, for a possibly undefined value; `None`
      when the conversion throws. */
  function TemplateText(v: Option<JsValue>, rt: Runtime): (s: Option<string>)
    ensures s.None? <==> v.Some? && ConversionThrows(v.value)
    ensures v.None? ==> s == Some("undefined")
    ensures v.Some? && v.value.JStr? ==> s == Some(v.value.s)
  {
    match v
    case None => Some("undefined")
    case Some(x) => if ConversionThrows(x) then None else Some(ToJsString(x, rt))
  }

  /** `previousQA = []` then `Array.isArray(previousQA) ? previousQA : []`. */
  function PreviousEntries(p: Option<JsValue>): (items: seq<JsValue>)
    ensures p.Some? && p.value.JArr? ==> items == p.value.items
    ensures !(p.Some? && p.value.JArr?) ==> items == []
  {
    match p
    case Some(JArr(items)) => items
    case _ => []
  }

  /** How the prompt builders read one client-supplied history entry through
      `qa.question` and `qa.answer` (and `qa.score`, `qa.feedback`): `None`
      when that throws, for `null` or for a question or answer whose
      conversion throws. A score that is not a number and feedback that is
      not a string are read as absent. */
  function DecodeEntry(v: JsValue, rt: Runtime): (e: Option<QAPair>)
    ensures e.None? <==> v == JNull || FieldThrows(v, "question") || FieldThrows(v, "answer")
    ensures e.Some? && v.JObj? && "question" in v.fields && v.fields["question"].JStr? ==>
              e.value.question == v.fields["question"].s
    ensures e.Some? && v.JObj? && "answer" in v.fields && v.fields["answer"].JStr? ==>
              e.value.answer == v.fields["answer"].s
    ensures e.Some? && !v.JObj? ==> e.value == QAPair("undefined", "undefined", None, None)
  {
    match (Get(v, "question"), Get(v, "answer"), Get(v, "score"), Get(v, "feedback"))
    case (Read(q), Read(a), Read(s), Read(f)) =>
      (match (TemplateText(q, rt), TemplateText(a, rt))
       case (Some(question), Some(answer)) =>
         Some(QAPair(question, answer,
                     if s.Some? && s.value.JNum? then Some(s.value.n) else None,
                     if f.Some? && f.value.JStr? then Some(f.value.s) else None))
       case _ => None)
    case _ => None
  }

  /** The client's history as the prompt builders read it: `None` when some entry throws. */
  function DecodeHistory(items: seq<JsValue>, rt: Runtime): (h: Option<seq<QAPair>>)
    ensures h.None? <==> exists i | 0 <= i < |items| :: DecodeEntry(items[i], rt).None?
    ensures JNull in items ==> h.None?
    ensures h.Some? ==> |h.value| == |items|
    ensures h.Some? ==> forall i | 0 <= i < |items| :: DecodeEntry(items[i], rt) == Some(h.value[i])
  {
    if items == [] then Some([])
    else
      match (DecodeEntry(items[0], rt), DecodeHistory(items[1..], rt))
      case (Some(e), Some(rest)) =>
        assert forall i | 1 <= i < |items| :: items[i] == items[1..][i - 1];
        Some([e] + rest)
      case (None, _) =>
        None
      case (_, None) =>
        var j :| 0 <= j < |items[1..]| && DecodeEntry(items[1..][j], rt).None?;
        assert items[j + 1] == items[1..][j];
        None
  }

  /** A history that cannot be read stays unreadable with an entry appended;
      a readable one is read entry by entry. */
  lemma DecodeHistorySnoc(items: seq<JsValue>, x: JsValue, rt: Runtime)
    ensures DecodeHistory(items, rt).None? ==> DecodeHistory(items + [x], rt).None?
    ensures DecodeHistory(items, rt).Some? && DecodeEntry(x, rt).Some? ==>
              DecodeHistory(items + [x], rt) == Some(DecodeHistory(items, rt).value + [DecodeEntry(x, rt).value])
  {
    var all := items + [x];
    assert forall i | 0 <= i < |items| :: all[i] == items[i];
    assert all[|items|] == x;
    if DecodeHistory(items, rt).None? {
      var j :| 0 <= j < |items| && DecodeEntry(items[j], rt).None?;
      assert DecodeEntry(all[j], rt).None?;
    } else if DecodeEntry(x, rt).Some? {
      var h := DecodeHistory(items, rt).value;
      var want := h + [DecodeEntry(x, rt).value];
      assert forall i | 0 <= i < |all| :: DecodeEntry(all[i], rt) == Some(want[i]);
      assert DecodeHistory(all, rt).Some?;
      var got := DecodeHistory(all, rt).value;
      assert |got| == |want|;
      assert forall i | 0 <= i < |all| :: got[i] == want[i];
      assert got == want;
    }
  }

  /** The summary prompt also converts `qa.score` (when not nullish) and
      `qa.feedback` (when truthy). A value whose conversion throws is an
      object or an array, so it is always both. */
  predicate SummaryFieldsThrow(v: JsValue)
  {
    FieldThrows(v, "score") || FieldThrows(v, "feedback")
  }

  /** A history the summary prompt cannot be built from. */
  predicate SummaryUnreadable(items: seq<JsValue>, rt: Runtime)
  {
    DecodeHistory(items, rt).None? || exists i | 0 <= i < |items| :: SummaryFieldsThrow(items[i])
  }

  /** `currentQA`: the question as the client sent it, the answer string and
      the evaluation. */
  function CurrentEntry(question: JsValue, answer: string, score: real, feedback: string): JsValue
  {
    JObj(map["question" := question, "answer" := JStr(answer), "score" := JNum(score), "feedback" := JStr(feedback)])
  }

  /** The prompt builders read the new entry as the converted question, the
      answer and the evaluation, and the summary prompt can convert it. */
  lemma CurrentEntryReadable(question: JsValue, answer: string, score: real, feedback: string, rt: Runtime)
    requires !ConversionThrows(question)
    ensures DecodeEntry(CurrentEntry(question, answer, score, feedback), rt)
            == Some(QAPair(ToJsString(question, rt), answer, Some(score), Some(feedback)))
    ensures !SummaryFieldsThrow(CurrentEntry(question, answer, score, feedback))
  {
    var m := CurrentEntry(question, answer, score, feedback).fields;
    assert m["question"] == question && m["answer"] == JStr(answer);
    assert m["score"] == JNum(score) && m["feedback"] == JStr(feedback);
  }

  /** Appending an entry the summary can convert keeps a history readable
      for the summary exactly when it was. */
  lemma SummaryUnreadableSnoc(items: seq<JsValue>, x: JsValue, rt: Runtime)
    requires DecodeEntry(x, rt).Some? && !SummaryFieldsThrow(x)
    ensures SummaryUnreadable(items + [x], rt) <==> SummaryUnreadable(items, rt)
  {
    var all := items + [x];
    DecodeHistorySnoc(items, x, rt);
    assert forall i | 0 <= i < |items| :: all[i] == items[i];
    assert all[|items|] == x;
    if exists i | 0 <= i < |all| :: SummaryFieldsThrow(all[i]) {
      var i :| 0 <= i < |all| && SummaryFieldsThrow(all[i]);
      assert i < |items| && SummaryFieldsThrow(items[i]);
    }
    if exists i | 0 <= i < |items| :: SummaryFieldsThrow(items[i]) {
      var i :| 0 <= i < |items| && SummaryFieldsThrow(items[i]);
      assert SummaryFieldsThrow(all[i]);
    }
  }

  /** handleGetQuestion: one question request over the client's history, made
      once the history, jobType and companyType have been converted; every
      failure rejects the handler's promise. */
  function HandleGetQuestion(jobType: JsValue, companyType: JsValue, previous: seq<JsValue>,
                             llm: Request -> Completion, rt: Runtime): (h: Handled)
    ensures DecodeHistory(previous, rt).None? || ConversionThrows(jobType) || ConversionThrows(companyType) ==>
              h == Rejection([])
    ensures DecodeHistory(previous, rt).Some? && !ConversionThrows(jobType) && !ConversionThrows(companyType) ==>
              var request := QuestionRequest(ToJsString(jobType, rt), ToJsString(companyType, rt), RouteDifficulty,
                                             DecodeHistory(previous, rt).value);
              h.calls == [request] && (h.response.Rejected? <==> llm(request).Threw?)
    ensures h.response.Response? ==>
              h.response.status == 200 && h.response.reply.QuestionReply? && h.response.reply.question != ""
  {
    match DecodeHistory(previous, rt)
    case None => Rejection([])
    case Some(history) =>
      if ConversionThrows(jobType) || ConversionThrows(companyType) then Rejection([])
      else
        var q := GenerateInterviewQuestion(ToJsString(jobType, rt), ToJsString(companyType, rt), RouteDifficulty, history, llm);
        match q.result
        case Thrown => Rejection(q.calls)
        case Returned(question) => Handled(Response(200, QuestionReply(question)), q.calls)
  }

  /** What handleSubmitAnswer does once the answer is scored: the final
      feedback when `allQA` is full, the next question before that. Every
      failure rejects. */
  function AfterEvaluation(allQA: seq<JsValue>, score: real, feedback: string, jobType: JsValue,
                           companyType: JsValue, llm: Request -> Completion, rt: Runtime): (h: Handled)
    ensures h.response.Response? ==>
              h.response.status == 200 && (h.response.reply.Continue? || h.response.reply.Finished?)
              && h.response.reply.allQA == allQA && h.response.reply.score == score
              && h.response.reply.feedback == feedback
    ensures |allQA| >= TotalQuestions && SummaryUnreadable(allQA, rt) ==> h == Rejection([])
    ensures |allQA| >= TotalQuestions && !SummaryUnreadable(allQA, rt) ==>
              var request := SummaryRequest(DecodeHistory(allQA, rt).value);
              h.calls == [request] && (h.response.Rejected? <==> llm(request).Threw?)
              && (h.response.Response? ==> h.response.reply.Finished? && h.response.reply.finalFeedback != "")
    ensures |allQA| < TotalQuestions
            && (DecodeHistory(allQA, rt).None? || ConversionThrows(jobType) || ConversionThrows(companyType)) ==>
              h == Rejection([])
    ensures |allQA| < TotalQuestions
            && DecodeHistory(allQA, rt).Some? && !ConversionThrows(jobType) && !ConversionThrows(companyType) ==>
              var request := QuestionRequest(ToJsString(jobType, rt), ToJsString(companyType, rt), RouteDifficulty,
                                             DecodeHistory(allQA, rt).value);
              h.calls == [request] && (h.response.Rejected? <==> llm(request).Threw?)
              && (h.response.Response? ==> h.response.reply.Continue? && h.response.reply.nextQuestion != "")
  {
    if |allQA| >= TotalQuestions then
      if SummaryUnreadable(allQA, rt) then Rejection([])
      else
        var fin := GenerateFinalFeedback(DecodeHistory(allQA, rt).value, llm, rt);
        if fin.result.Thrown? then Rejection(fin.calls)
        else Handled(Response(200, Finished(score, feedback, fin.result.value, allQA)), fin.calls)
    else
      match DecodeHistory(allQA, rt)
      case None => Rejection([])
      case Some(history) =>
        if ConversionThrows(jobType) || ConversionThrows(companyType) then Rejection([])
        else
          var next := GenerateInterviewQuestion(ToJsString(jobType, rt), ToJsString(companyType, rt), RouteDifficulty,
                                                history, llm);
          if next.result.Thrown? then Rejection(next.calls)
          else Handled(Response(200, Continue(score, feedback, next.result.value, allQA)), next.calls)
  }

  /** handleSubmitAnswer: evaluate the answer, append it to the history, then
      ask for the final feedback once the history holds `TotalQuestions`
      entries and for the next question before that. It never answers with
      an error of its own: every failure rejects. */
  function HandleSubmitAnswer(question: JsValue, answer: string, jobType: JsValue, companyType: JsValue,
                              previous: seq<JsValue>, llm: Request -> Completion, rt: Runtime): (h: Handled)
    ensures ConversionThrows(question) || ConversionThrows(jobType) ==> h == Rejection([])
    ensures !ConversionThrows(question) && !ConversionThrows(jobType) ==>
              |h.calls| >= 1 && h.calls[0] == EvaluationRequest(ToJsString(question, rt), answer, ToJsString(jobType, rt))
    ensures !ConversionThrows(question) && !ConversionThrows(jobType)
            && llm(EvaluationRequest(ToJsString(question, rt), answer, ToJsString(jobType, rt))).Threw? ==>
              h == Rejection([EvaluationRequest(ToJsString(question, rt), answer, ToJsString(jobType, rt))])
    ensures h.response.Response? ==>
              var r := h.response.reply;
              h.response.status == 200 && (r.Continue? || r.Finished?)
              && 0.0 <= r.score <= 100.0 && r.feedback != ""
              && r.allQA == previous + [CurrentEntry(question, answer, r.score, r.feedback)]
              && (r.Finished? <==> |previous| + 1 >= TotalQuestions)
    ensures !ConversionThrows(question) && !ConversionThrows(jobType) && DecodeHistory(previous, rt).None? ==>
              h.response.Rejected? && |h.calls| == 1
  {
    if ConversionThrows(question) || ConversionThrows(jobType) then Rejection([])
    else
      var ev := EvaluateAnswer(ToJsString(question, rt), answer, ToJsString(jobType, rt), llm, rt);
      match ev.result
      case Thrown => Rejection(ev.calls)
      case Returned(evaluation) =>
        var entry := CurrentEntry(question, answer, evaluation.score, evaluation.feedback);
        var allQA := previous + [entry];
        DecodeHistorySnoc(previous, entry, rt);
        var rest := AfterEvaluation(allQA, evaluation.score, evaluation.feedback, jobType, companyType, llm, rt);
        assert (ev.calls + rest.calls)[0] == ev.calls[0];
        Handled(rest.response, ev.calls + rest.calls)
  }

  /** The body asks for an evaluation: `answer !== undefined && answer !== null && question`. */
  predicate IsSubmission(b: Body)
  {
    !Nullish(b.answer) && Truthy(b.question)
  }

  /** POST as written: its `catch` answers an unreadable body and an answer
      that `String(...)` cannot convert with the route's 500; the handlers'
      failures escape it as rejections. */
  function Post(request: Option<JsValue>, llm: Request -> Completion, rt: Runtime): (h: Handled)
    ensures ReadBody(request).None? ==> h == Failure([])
    ensures h.response.Response? && h.response.status == 400 <==>
              ReadBody(request).Some?
              && !(Truthy(ReadBody(request).value.jobType) && Truthy(ReadBody(request).value.companyType))
    ensures h.response.Response? && h.response.status == 400 ==>
              h == Handled(Response(400, ErrorReply(MissingFieldsError)), [])
    ensures h == Failure([]) <==>
              ReadBody(request).None?
              || (var b := ReadBody(request).value;
                  Truthy(b.jobType) && Truthy(b.companyType) && IsSubmission(b) && ConversionThrows(b.answer.value))
    ensures h.response.Response? ==>
              h.response.status in {200, 400, 500} && (h.response.status != 200 <==> h.response.reply.ErrorReply?)
    ensures h.response.Response? && (h.response.reply.Continue? || h.response.reply.Finished?) ==>
              ReadBody(request).Some? && IsSubmission(ReadBody(request).value)
    ensures h.response.Rejected? ==>
              ReadBody(request).Some? && Truthy(ReadBody(request).value.jobType)
              && Truthy(ReadBody(request).value.companyType)
  {
    match ReadBody(request)
    case None => Failure([])
    case Some(b) =>
      if !Truthy(b.jobType) || !Truthy(b.companyType) then
        Handled(Response(400, ErrorReply(MissingFieldsError)), [])
      else
        var previous := PreviousEntries(b.previousQA);
        if IsSubmission(b) then
          if ConversionThrows(b.answer.value) then Failure([])
          else
            HandleSubmitAnswer(b.question.value, ToJsString(b.answer.value, rt), b.jobType.value, b.companyType.value,
                               previous, llm, rt)
        else
          HandleGetQuestion(b.jobType.value, b.companyType.value, previous, llm, rt)
  }

  /** POST as evidently intended, with `return await handle...(...)`: a
      handler's rejection reaches the `catch` like every other exception,
      so every failure is answered with the route's JSON. */
  function PostAwaited(request: Option<JsValue>, llm: Request -> Completion, rt: Runtime): (h: Handled)
    ensures h.response.Response?
    ensures h.response.status in {200, 400, 500} && (h.response.status != 200 <==> h.response.reply.ErrorReply?)
    ensures h.response.status == 500 ==> h.response.reply == ErrorReply(FailureError)
    ensures h.calls == Post(request, llm, rt).calls
    ensures Post(request, llm, rt).response.Response? ==> h == Post(request, llm, rt)
  {
    var h := Post(request, llm, rt);
    if h.response.Rejected? then Failure(h.calls) else h
  }

  /** A question request whose history holds `null`: the handler rejects
      before any completion call, POST as written lets the rejection escape
      its `catch`, and POST as intended answers it with the route's 500. */
  lemma NullEntryEscapesCatch(request: Option<JsValue>, b: Body, llm: Request -> Completion, rt: Runtime)
    requires ReadBody(request) == Some(b) && Truthy(b.jobType) && Truthy(b.companyType) && !IsSubmission(b)
    requires JNull in PreviousEntries(b.previousQA)
    ensures Post(request, llm, rt) == Rejection([])
    ensures PostAwaited(request, llm, rt) == Failure([])
  {
  }

  /** A submission whose evaluation call throws: the handler rejects after
      that one request, POST as written lets the rejection escape its
      `catch`, and POST as intended answers it with the route's 500. */
  lemma ThrowingEvaluationEscapesCatch(request: Option<JsValue>, b: Body, llm: Request -> Completion, rt: Runtime)
    requires ReadBody(request) == Some(b) && Truthy(b.jobType) && Truthy(b.companyType) && IsSubmission(b)
    requires !ConversionThrows(b.answer.value) && !ConversionThrows(b.question.value) && !ConversionThrows(b.jobType.value)
    requires llm(EvaluationRequest(ToJsString(b.question.value, rt), ToJsString(b.answer.value, rt),
                                   ToJsString(b.jobType.value, rt))).Threw?
    ensures var evaluation := EvaluationRequest(ToJsString(b.question.value, rt), ToJsString(b.answer.value, rt),
                                                ToJsString(b.jobType.value, rt));
            Post(request, llm, rt) == Rejection([evaluation])
            && PostAwaited(request, llm, rt) == Failure([evaluation])
  {
    SubmissionDispatched(request, b, llm, rt);
  }

  /** The body `{"jobType":"a","companyType":"b","previousQA":[null]}`. */
  lemma NullEntryExample(llm: Request -> Completion, rt: Runtime)
    ensures var body := JObj(map["jobType" := JStr("a"), "companyType" := JStr("b"), "previousQA" := JArr([JNull])]);
            Post(Some(body), llm, rt) == Rejection([]) && PostAwaited(Some(body), llm, rt) == Failure([])
  {
    var m := map["jobType" := JStr("a"), "companyType" := JStr("b"), "previousQA" := JArr([JNull])];
    assert "question" !in m && "answer" !in m;
    var b := Body(None, None, Some(JStr("a")), Some(JStr("b")), Some(JArr([JNull])));
    assert ReadBody(Some(JObj(m))) == Some(b);
    NullEntryEscapesCatch(Some(JObj(m)), b, llm, rt);
  }

  /** The completion endpoint answers every request. */
  ghost predicate NeverThrows(llm: Request -> Completion)
  {
    forall p :: llm(p).Reply?
  }

  /** With a completion endpoint that answers and a history the next step
      can read, the handler of a submitted answer succeeds with exactly two
      requests: the evaluation, then the final feedback over the whole
      history for a full one, or the next medium question before that. The
      reply's history reads as the client's followed by the new answer. */
  lemma SubmitHandlerFlow(question: JsValue, answer: string, jobType: JsValue, companyType: JsValue,
                          previous: seq<JsValue>, llm: Request -> Completion, rt: Runtime)
    requires !ConversionThrows(question) && !ConversionThrows(jobType) && !ConversionThrows(companyType)
    requires DecodeHistory(previous, rt).Some?
    requires |previous| + 1 >= TotalQuestions ==> forall i | 0 <= i < |previous| :: !SummaryFieldsThrow(previous[i])
    requires NeverThrows(llm)
    ensures HandleSubmitAnswer(question, answer, jobType, companyType, previous, llm, rt).response.Response?
    ensures var h := HandleSubmitAnswer(question, answer, jobType, companyType, previous, llm, rt);
            var r := h.response.reply;
            h.response.status == 200 && (r.Continue? || r.Finished?)
            && DecodeHistory(r.allQA, rt)
               == Some(DecodeHistory(previous, rt).value
                       + [QAPair(ToJsString(question, rt), answer, Some(r.score), Some(r.feedback))])
            && |h.calls| == 2 && h.calls[0] == EvaluationRequest(ToJsString(question, rt), answer, ToJsString(jobType, rt))
            && (|previous| + 1 >= TotalQuestions ==>
                  r.Finished? && h.calls[1] == SummaryRequest(DecodeHistory(r.allQA, rt).value))
            && (|previous| + 1 < TotalQuestions ==>
                  r.Continue? && h.calls[1] == QuestionRequest(ToJsString(jobType, rt), ToJsString(companyType, rt),
                                                               Medium, DecodeHistory(r.allQA, rt).value))
  {
    var q, j := ToJsString(question, rt), ToJsString(jobType, rt);
    assert llm(EvaluationRequest(q, answer, j)).Reply?;
    var ev := EvaluateAnswer(q, answer, j, llm, rt);
    var score, feedback := ev.result.value.score, ev.result.value.feedback;
    var entry := CurrentEntry(question, answer, score, feedback);
    var allQA := previous + [entry];
    CurrentEntryReadable(question, answer, score, feedback, rt);
    DecodeHistorySnoc(previous, entry, rt);
    if |previous| + 1 >= TotalQuestions {
      SummaryUnreadableSnoc(previous, entry, rt);
    }
    AfterEvaluationSucceeds(allQA, score, feedback, jobType, companyType, llm, rt);
    SubmitScored(question, answer, jobType, companyType, previous, llm, rt);
  }

  /** Once the answer is scored, the submit handler is the evaluation request
      followed by the step after it, over the history with the new entry. */
  lemma SubmitScored(question: JsValue, answer: string, jobType: JsValue, companyType: JsValue,
                     previous: seq<JsValue>, llm: Request -> Completion, rt: Runtime)
    requires !ConversionThrows(question) && !ConversionThrows(jobType)
    requires EvaluateAnswer(ToJsString(question, rt), answer, ToJsString(jobType, rt), llm, rt).result.Returned?
    ensures var ev := EvaluateAnswer(ToJsString(question, rt), answer, ToJsString(jobType, rt), llm, rt);
            var score, feedback := ev.result.value.score, ev.result.value.feedback;
            var rest := AfterEvaluation(previous + [CurrentEntry(question, answer, score, feedback)], score, feedback,
                                        jobType, companyType, llm, rt);
            HandleSubmitAnswer(question, answer, jobType, companyType, previous, llm, rt)
            == Handled(rest.response, ev.calls + rest.calls)
  {
  }

  /** With a completion endpoint that answers and a history the step can
      read, the step after the evaluation succeeds with exactly one request. */
  lemma AfterEvaluationSucceeds(allQA: seq<JsValue>, score: real, feedback: string, jobType: JsValue,
                                companyType: JsValue, llm: Request -> Completion, rt: Runtime)
    requires NeverThrows(llm)
    requires |allQA| >= TotalQuestions ==> !SummaryUnreadable(allQA, rt)
    requires |allQA| < TotalQuestions ==>
               DecodeHistory(allQA, rt).Some? && !ConversionThrows(jobType) && !ConversionThrows(companyType)
    ensures var h := AfterEvaluation(allQA, score, feedback, jobType, companyType, llm, rt);
            h.response.Response? && h.response.status == 200 && |h.calls| == 1
  {
    var history := DecodeHistory(allQA, rt).value;
    if |allQA| >= TotalQuestions {
      assert llm(SummaryRequest(history)).Reply?;
    } else {
      assert llm(QuestionRequest(ToJsString(jobType, rt), ToJsString(companyType, rt), RouteDifficulty, history)).Reply?;
    }
  }

  /** POST with jobType, companyType, a question and an answer that converts
      reaches the submit handler with the answer's string form, the other
      values as sent and the client's history. */
  lemma SubmissionDispatched(request: Option<JsValue>, b: Body, llm: Request -> Completion, rt: Runtime)
    requires ReadBody(request) == Some(b)
    requires Truthy(b.jobType) && Truthy(b.companyType) && IsSubmission(b)
    requires !ConversionThrows(b.answer.value)
    ensures Post(request, llm, rt)
            == HandleSubmitAnswer(b.question.value, ToJsString(b.answer.value, rt), b.jobType.value,
                                  b.companyType.value, PreviousEntries(b.previousQA), llm, rt)
  {
  }

  /** A request without an answer, with a readable history and convertible
      jobType and companyType, gets one medium question generated over that
      history. */
  lemma QuestionFlow(request: Option<JsValue>, b: Body, llm: Request -> Completion, rt: Runtime)
    requires ReadBody(request) == Some(b)
    requires Truthy(b.jobType) && Truthy(b.companyType) && !IsSubmission(b)
    requires DecodeHistory(PreviousEntries(b.previousQA), rt).Some?
    requires !ConversionThrows(b.jobType.value) && !ConversionThrows(b.companyType.value)
    requires NeverThrows(llm)
    ensures var h := Post(request, llm, rt);
            h.response.Response? && h.response.status == 200 && h.response.reply.QuestionReply?
            && h.calls == [QuestionRequest(ToJsString(b.jobType.value, rt), ToJsString(b.companyType.value, rt), Medium,
                                          DecodeHistory(PreviousEntries(b.previousQA), rt).value)]
  {
    var jobType, companyType := ToJsString(b.jobType.value, rt), ToJsString(b.companyType.value, rt);
    var history := DecodeHistory(PreviousEntries(b.previousQA), rt).value;
    assert llm(QuestionRequest(jobType, companyType, RouteDifficulty, history)).Reply?;
  }
}
