/** Interview answer evaluation and prompt assembly (lib/openai.ts).
    The chat-completion endpoint is an oracle `llm` from requests to
    completions (`Render` gives the messages a request sends); every
    function that calls it returns the requests it made, so that "no model
    call" can be stated. */
module Interview {
  import opened Wrappers
  import opened Text
  import opened Js

  const Persona: string :=
    "あなたは厳格だが公平な日系大企業の人事部長です。採用面接で、候補者の本質を見抜きつつ、建設的な指摘と励ましのバランスを保ってください。"
  const ModelName: string := "gpt-4o-mini"
  /** Used when the question completion is empty. */
  const FallbackQuestion: string := "本日はお時間いただきありがとうございました。"
  /** Used when the parsed evaluation has empty feedback. */
  const DefaultFeedback: string := "評価できませんでした。"
  /** The final feedback of an empty session; no model call is made. */
  const NoAnswersFeedback: string := "回答がありませんでした。"
  /** Used when the summary completion is empty. */
  const SummaryFallback: string := "総評を生成できませんでした。"
  /** Parsed in place of an empty evaluation completion. */
  const EmptyReply: string := "{}"
  /** How much of an unparseable reply is kept as feedback. */
  const FeedbackPrefixLength: nat := 500

  datatype Difficulty = Easy | Medium | Hard

  function DifficultyName(d: Difficulty): string
  {
    match d
    case Easy => "easy"
    case Medium => "medium"
    case Hard => "hard"
  }

  function DifficultyGuide(d: Difficulty): string
  {
    match d
    case Easy => "基本的な志望動機・自己PRレベル"
    case Medium => "経験・スキル・チームワークに関する実践的な質問"
    case Hard => "課題解決・価値観・逆質問まで含む深掘り・難問"
  }

  /** One question of a session with the candidate's answer and, once scored, its evaluation. */
  datatype QAPair = QAPair(question: string, answer: string, score: Option<real>, feedback: Option<string>)

  /** The chat messages sent: model, system message, user message, temperature. */
  datatype Prompt = Prompt(model: string, system: string, user: string, temperature: real)

  /** A completion request, by what it asks for; `Render` gives the
      messages actually sent. */
  datatype Request =
    | EvaluationRequest(question: string, answer: string, jobType: string)
    | QuestionRequest(jobType: string, companyType: string, difficulty: Difficulty, history: seq<QAPair>)
    | SummaryRequest(allQA: seq<QAPair>)

  /** What a completion call gives back: it throws, or returns the first
      choice's message content, which may be missing. */
  datatype Completion = Threw | Reply(content: Option<string>)

  /** A JavaScript call that returns a value or throws. */
  datatype Outcome<+T> = Returned(value: T) | Thrown

  /** An outcome together with the completion requests made, in order. */
  datatype Traced<+T> = Traced(result: Outcome<T>, calls: seq<Request>)

  datatype Evaluation = Evaluation(score: real, feedback: string)

  /** What parseEvaluateResponse returns: the score before clamping. */
  datatype ParsedReply = ParsedReply(score: Num, feedback: string)

  /** `content?.trim() || fallback`. */
  function ContentOr(content: Option<string>, fallback: string): (r: string)
    ensures fallback != "" ==> r != ""
    ensures content.Some? && Trim(content.value) != "" ==> r == Trim(content.value)
    ensures content.None? || Trim(content.value) == "" ==> r == fallback
  {
    if content.Some? && Trim(content.value) != "" then Trim(content.value) else fallback
  }

  // ---------------------------------------------------------------- code fences

  /** `/```json?/i` matches at the start of `s`. */
  predicate JsonFenceAt(s: string)
  {
    |s| >= 6 && s[0] == '`' && s[1] == '`' && s[2] == '`' && (s[3] == 'j' || s[3] == 'J')
    && (s[4] == 's' || s[4] == 'S') && (s[5] == 'o' || s[5] == 'O')
  }

  /** Length of the match at the start of `s` of the case-insensitive pattern ```json?\s* . */
  function JsonFenceLength(s: string): (n: nat)
    requires JsonFenceAt(s)
    ensures 6 <= n <= |s|
  {
    var k := if |s| > 6 && (s[6] == 'n' || s[6] == 'N') then 7 else 6;
    k + LeadingSpace(s[k..])
  }

  /** `s.replace(...)` with the global, case-insensitive pattern ```json?\s* : every match removed. */
  function StripJsonFences(s: string): (r: string)
    ensures |r| <= |s|
    ensures '`' !in s ==> r == s
    decreases |s|
  {
    if |s| == 0 then ""
    else if JsonFenceAt(s) then
      StripJsonFences(s[JsonFenceLength(s)..])
    else [s[0]] + StripJsonFences(s[1..])
  }

  /** `s.replace(...)` with the global pattern ```\s* : every match removed. */
  function StripFences(s: string): (r: string)
    ensures |r| <= |s|
    ensures '`' !in s ==> r == s
    decreases |s|
  {
    if |s| == 0 then ""
    else if StartsWith(s, "```") then
      assert s[0] == s[..3][0];
      StripFences(s[3 + LeadingSpace(s[3..])..])
    else [s[0]] + StripFences(s[1..])
  }

  /** The text handed to JSON.parse: both fence patterns removed, then trimmed. */
  function CleanReply(raw: string): string
  {
    Trim(StripFences(StripJsonFences(raw)))
  }

  /** A text that does not start with a backtick keeps its first character. */
  lemma StripJsonFencesStep(s: string)
    requires s != [] && s[0] != '`'
    ensures StripJsonFences(s) == [s[0]] + StripJsonFences(s[1..])
  {
    assert !JsonFenceAt(s);
  }

  lemma StripFencesStep(s: string)
    requires s != [] && s[0] != '`'
    ensures StripFences(s) == [s[0]] + StripFences(s[1..])
  {
    assert !StartsWith(s, "```") by {
      if |s| >= 3 { assert s[..3][0] == s[0]; }
    }
  }

  /** Putting the first character of `x` back in front of the rest of `x` followed by `t`. */
  lemma ConsOnto(x: string, t: string, r: string, r1: string)
    requires x != [] && r == [x[0]] + r1 && r1 == x[1..] + t
    ensures r == x + t
  {
    assert [x[0]] + x[1..] == x;
  }

  /** Text without backticks before `y` passes through the first fence pattern unchanged. */
  lemma {:induction false} StripJsonFencesPlain(x: string, y: string)
    requires forall i | 0 <= i < |x| :: x[i] != '`'
    ensures StripJsonFences(x + y) == x + StripJsonFences(y)
    decreases |x|
  {
    if x == [] {
      assert x + y == y;
    } else {
      var s := x + y;
      assert s[0] == x[0];
      assert s[1..] == x[1..] + y;
      assert forall i | 0 <= i < |x[1..]| :: x[1..][i] == x[i + 1];
      StripJsonFencesStep(s);
      StripJsonFencesPlain(x[1..], y);
      ConsOnto(x, StripJsonFences(y), StripJsonFences(s), StripJsonFences(x[1..] + y));
    }
  }

  /** Text without backticks before `y` passes through the second fence pattern unchanged. */
  lemma {:induction false} StripFencesPlain(x: string, y: string)
    requires forall i | 0 <= i < |x| :: x[i] != '`'
    ensures StripFences(x + y) == x + StripFences(y)
    decreases |x|
  {
    if x == [] {
      assert x + y == y;
    } else {
      var s := x + y;
      assert s[0] == x[0];
      assert s[1..] == x[1..] + y;
      assert forall i | 0 <= i < |x[1..]| :: x[1..][i] == x[i + 1];
      StripFencesStep(s);
      StripFencesPlain(x[1..], y);
      ConsOnto(x, StripFences(y), StripFences(s), StripFences(x[1..] + y));
    }
  }

  /** A "```json" opening is one match with the white space after it. */
  lemma JsonFenceOpening(open: string, t: string)
    requires |open| == 7 && JsonFenceAt(open) && (open[6] == 'n' || open[6] == 'N')
    ensures JsonFenceAt(open + t) && JsonFenceLength(open + t) == 7 + LeadingSpace(t)
  {
    var s := open + t;
    assert s[0] == open[0] && s[1] == open[1] && s[2] == open[2];
    assert s[3] == open[3] && s[4] == open[4] && s[5] == open[5] && s[6] == open[6];
    assert s[7..] == t;
  }

  /** The opening fence with its trailing white space is skipped as one match. */
  lemma JsonFenceSkipped(open: string, w: string, rest: string)
    requires |open| == 7 && JsonFenceAt(open) && (open[6] == 'n' || open[6] == 'N')
    requires AllSpace(w) && (rest == [] || !IsSpace(rest[0]))
    ensures StripJsonFences(open + w + rest) == StripJsonFences(rest)
  {
    var t := w + rest;
    assert open + w + rest == open + t;
    JsonFenceOpening(open, t);
    LeadingSpaceOfPadded(w, rest);
    assert (open + t)[7 + |w|..] == rest;
  }

  /** A reply wrapped as "```json", white space, a body without backticks and
      a closing "```" is cleaned to the trimmed body. */
  lemma FencedReplyCleaned(open: string, w: string, body: string)
    requires |open| == 7 && JsonFenceAt(open) && (open[6] == 'n' || open[6] == 'N')
    requires AllSpace(w) && '`' !in body
    ensures CleanReply(open + w + body + "```") == Trim(body)
  {
    var n := LeadingSpace(body);
    var inner := body[n..];
    assert body == body[..n] + inner;
    var s := open + w + body + "```";
    assert s == open + (w + body[..n]) + (inner + "```");
    assert AllSpace(w + body[..n]);
    assert inner == [] || inner[0] == (inner + "```")[0];
    JsonFenceSkipped(open, w + body[..n], inner + "```");
    assert forall c | c in inner :: c in body;
    ClosingFenceDropped(inner);
    assert CleanReply(s) == Trim(inner);
    TrimAfterSpace(body[..n], inner);
  }

  /** A text without backticks followed by a closing fence loses the fence. */
  lemma ClosingFenceDropped(inner: string)
    requires '`' !in inner
    ensures StripFences(StripJsonFences(inner + "```")) == inner
  {
    assert forall i | 0 <= i < |inner| :: inner[i] in inner;
    StripJsonFencesPlain(inner, "```");
    BareFence();
    StripFencesPlain(inner, "```");
    assert inner + "" == inner;
  }

  /** A bare "```" is left alone by the first pattern (which needs "json" or "jso")
      and removed by the second. */
  lemma BareFence()
    ensures StripJsonFences("```") == "```"
    ensures StripFences("```") == ""
  {
    var f := "```";
    assert !JsonFenceAt(f);
    assert StripJsonFences(f[1..]) == f[1..] by {
      assert !JsonFenceAt(f[1..]);
      assert StripJsonFences(f[2..]) == f[2..] by {
        assert !JsonFenceAt(f[2..]);
      }
    }
    assert StartsWith(f, "```") && LeadingSpace(f[3..]) == 0;
  }

  // ---------------------------------------------------------------- fallback patterns

  const ScoreKey: string := "\"score\""
  const FeedbackKey: string := "\"feedback\""

  /** The rest of `t` after the literal `key`, white space, ':' and white space,
      as the `key\s*:\s*` prefix of both fallback patterns matches it. */
  function AfterKey(t: string, key: string): (r: Option<string>)
    ensures r.Some? ==> StartsWith(t, key) && |r.value| < |t| && (r.value == [] || !IsSpace(r.value[0]))
  {
    if !StartsWith(t, key) then None
    else
      var a := t[|key|..];
      var b := a[LeadingSpace(a)..];
      if |b| == 0 || b[0] != ':' then None
      else
        var c := b[1..];
        Some(c[LeadingSpace(c)..])
  }

  /** `/"score"\s*:\s*(\d+)/` at the start of `t`: the captured digits. */
  function ScoreAt(t: string): (r: Option<string>)
    ensures r.Some? ==> |r.value| >= 1 && AllDigits(r.value)
  {
    match AfterKey(t, ScoreKey)
    case None => None
    case Some(d) =>
      var n := LeadingDigits(d);
      if n == 0 then None else Some(d[..n])
  }

  /** `/"feedback"\s*:\s*"([^"]*)"/` at the start of `t`: the text between the quotes. */
  function FeedbackAt(t: string): (r: Option<string>)
    ensures r.Some? ==> '"' !in r.value
  {
    match AfterKey(t, FeedbackKey)
    case None => None
    case Some(d) =>
      if |d| == 0 || d[0] != '"' || '"' !in d[1..] then None
      else Some(d[1..][..IndexOf(d[1..], '"')])
  }

  // ---------------------------------------------------------------- parseEvaluateResponse

  /** `typeof score === "number" ? score : Number(score) || 0`, for a score
      whose conversion does not throw. */
  function ScoreOf(v: Option<JsValue>, rt: Runtime): (n: Num)
    ensures n != NaN
    ensures (v.Some? && v.value.JNum?) ==> n == Finite(v.value.n)
    ensures !(v.Some? && v.value.JNum?) ==> n == (if NumTruthy(ToNumber(v, rt)) then ToNumber(v, rt) else Finite(0.0))
  {
    match v
    case Some(JNum(x)) => Finite(x)
    case _ => if NumTruthy(ToNumber(v, rt)) then ToNumber(v, rt) else Finite(0.0)
  }

  /** The `try` branch: None when it throws. That is when JSON.parse fails,
      when the parsed value is `null` (reading `.score` throws), or when
      `Number(obj.score)` or `String(obj.feedback ?? "")` throws. */
  function JsonBranch(cleaned: string, rt: Runtime): (r: Option<ParsedReply>)
    ensures r.Some? ==> r.value.score != NaN
    ensures r.None? <==> rt.jsonParse(cleaned).None? || rt.jsonParse(cleaned) == Some(JNull)
                         || FieldThrows(rt.jsonParse(cleaned).value, "score")
                         || FieldThrows(rt.jsonParse(cleaned).value, "feedback")
  {
    match rt.jsonParse(cleaned)
    case None => None
    case Some(obj) =>
      match (Get(obj, "score"), Get(obj, "feedback"))
      case (Read(score), Read(feedback)) =>
        if FieldThrows(obj, "score") || FieldThrows(obj, "feedback") then None
        else Some(ParsedReply(ScoreOf(score, rt), if Nullish(feedback) then "" else ToJsString(feedback.value, rt)))
      case _ => None
  }

  /** The `catch` branch: regular-expression scans over the raw reply. */
  function FallbackBranch(raw: string): (r: ParsedReply)
    ensures r.score.Finite? && 0.0 <= r.score.x <= 100.0
    ensures FirstMatch(raw, ScoreAt).None? ==> r.score == Finite(0.0)
    ensures FirstMatch(raw, ScoreAt).Some? ==>
              var n := DigitsValue(FirstMatch(raw, ScoreAt).value);
              r.score == Finite(if n < 100 then n as real else 100.0)
    ensures FirstMatch(raw, FeedbackAt).None? ==> r.feedback == Take(raw, FeedbackPrefixLength)
    ensures FirstMatch(raw, FeedbackAt).Some? ==> r.feedback == FirstMatch(raw, FeedbackAt).value
  {
    var score :=
      match FirstMatch(raw, ScoreAt)
      case Some(d) => if DigitsValue(d) < 100 then DigitsValue(d) else 100
      case None => 0;
    var feedback :=
      match FirstMatch(raw, FeedbackAt)
      case Some(f) => f
      case None => Take(raw, FeedbackPrefixLength);
    ParsedReply(Finite(score as real), feedback)
  }

  /** parseEvaluateResponse: never throws; the fallback answers every failure of the JSON branch. */
  function ParseEvaluateResponse(raw: string, rt: Runtime): (r: ParsedReply)
    ensures r.score != NaN
    ensures JsonBranch(CleanReply(raw), rt).None? ==> r == FallbackBranch(raw)
    ensures JsonBranch(CleanReply(raw), rt).Some? ==> r == JsonBranch(CleanReply(raw), rt).value
  {
    match JsonBranch(CleanReply(raw), rt)
    case Some(p) => p
    case None => FallbackBranch(raw)
  }

  /** `Math.min(100, Math.max(0, n))` for a number that is not NaN. */
  function Clamp(n: Num): (r: real)
    requires n != NaN
    ensures 0.0 <= r <= 100.0
    ensures n.Finite? && 0.0 <= n.x <= 100.0 ==> r == n.x
    ensures (n.Finite? && n.x < 0.0) || n == NegInfinity ==> r == 0.0
    ensures (n.Finite? && n.x > 100.0) || n == PosInfinity ==> r == 100.0
  {
    match n
    case Finite(x) => if x < 0.0 then 0.0 else if x > 100.0 then 100.0 else x
    case PosInfinity => 100.0
    case NegInfinity => 0.0
  }

  // ---------------------------------------------------------------- evaluateAnswer

  /** The messages of an evaluation request. */
  function RenderEvaluation(question: string, answer: string, jobType: string): Prompt
  {
    Prompt(ModelName,
      Persona + "\n職種「" + jobType + "」の面接において、回答を0〜100のスコアで評価し、簡潔なフィードバックを日本語で返してください。厳しすぎず、改善点と良かった点の両方に触れてください。",
      "【質問】\n" + question + "\n\n【回答】\n" + answer + "\n\n以下のJSON形式のみで答えてください。\n{\"score\": 0以上100以下の整数, \"feedback\": \"フィードバック文\"}",
      0.3)
  }

  /** evaluateAnswer: one completion call; the score always lies in [0,100] and
      the feedback is never empty, whichever parse path produced them. */
  function EvaluateAnswer(question: string, answer: string, jobType: string,
                          llm: Request -> Completion, rt: Runtime): (r: Traced<Evaluation>)
    ensures r.calls == [EvaluationRequest(question, answer, jobType)]
    ensures r.result.Thrown? <==> llm(EvaluationRequest(question, answer, jobType)).Threw?
    ensures r.result.Returned? ==> 0.0 <= r.result.value.score <= 100.0 && r.result.value.feedback != ""
  {
    var prompt := EvaluationRequest(question, answer, jobType);
    match llm(prompt)
    case Threw => Traced(Thrown, [prompt])
    case Reply(content) =>
      var parsed := ParseEvaluateResponse(ContentOr(content, EmptyReply), rt);
      Traced(Returned(Evaluation(Clamp(parsed.score), if parsed.feedback != "" then parsed.feedback else DefaultFeedback)), [prompt])
  }

  /** evaluateAnswer on a reply whose parse is known. */
  lemma EvaluationOfParsed(question: string, answer: string, jobType: string,
                           llm: Request -> Completion, rt: Runtime, content: Option<string>, p: ParsedReply)
    requires llm(EvaluationRequest(question, answer, jobType)) == Reply(content)
    requires ParseEvaluateResponse(ContentOr(content, EmptyReply), rt) == p
    ensures p.score != NaN
    ensures EvaluateAnswer(question, answer, jobType, llm, rt).result
            == Returned(Evaluation(Clamp(p.score), if p.feedback != "" then p.feedback else DefaultFeedback))
  {
  }

  /** The JSON branch on an object with a numeric score and a string feedback. */
  lemma ParsedObject(raw: string, rt: Runtime, fields: map<string, JsValue>, score: real, feedback: string)
    requires rt.jsonParse(CleanReply(raw)) == Some(JObj(fields))
    requires "score" in fields && fields["score"] == JNum(score)
    requires "feedback" in fields && fields["feedback"] == JStr(feedback)
    ensures ParseEvaluateResponse(raw, rt) == ParsedReply(Finite(score), feedback)
  {
    JsonBranchOfObject(CleanReply(raw), rt, fields, score, feedback);
  }

  lemma JsonBranchOfObject(cleaned: string, rt: Runtime, fields: map<string, JsValue>, score: real, feedback: string)
    requires rt.jsonParse(cleaned) == Some(JObj(fields))
    requires "score" in fields && fields["score"] == JNum(score)
    requires "feedback" in fields && fields["feedback"] == JStr(feedback)
    ensures JsonBranch(cleaned, rt) == Some(ParsedReply(Finite(score), feedback))
  {
    var obj := JObj(fields);
    assert Get(obj, "score") == Read(Some(JNum(score)));
    assert Get(obj, "feedback") == Read(Some(JStr(feedback)));
    assert !ConversionThrows(JNum(score)) && !ConversionThrows(JStr(feedback));
    assert !FieldThrows(obj, "score") && !FieldThrows(obj, "feedback");
  }

  /** The JSON branch on an empty object: score 0 and empty feedback. */
  lemma ParsedEmptyObject(raw: string, rt: Runtime)
    requires rt.jsonParse(CleanReply(raw)) == Some(JObj(map[]))
    ensures ParseEvaluateResponse(raw, rt) == ParsedReply(Finite(0.0), "")
  {
    JsonBranchOfEmptyObject(CleanReply(raw), rt);
  }

  lemma JsonBranchOfEmptyObject(cleaned: string, rt: Runtime)
    requires rt.jsonParse(cleaned) == Some(JObj(map[]))
    ensures JsonBranch(cleaned, rt) == Some(ParsedReply(Finite(0.0), ""))
  {
    var obj := JObj(map[]);
    assert Get(obj, "score") == Read(None);
    assert Get(obj, "feedback") == Read(None);
    assert !FieldThrows(obj, "score") && !FieldThrows(obj, "feedback");
    assert ScoreOf(None, rt) == Finite(0.0);
  }

  /** A well-formed JSON reply `{"score": s, "feedback": f}` is taken as is,
      with the score clamped to [0,100] (unchanged when already inside). */
  lemma WellFormedReplyKept(question: string, answer: string, jobType: string,
                            llm: Request -> Completion, rt: Runtime,
                            content: string, fields: map<string, JsValue>, score: real, feedback: string)
    requires llm(EvaluationRequest(question, answer, jobType)) == Reply(Some(content))
    requires Trim(content) != ""
    requires rt.jsonParse(CleanReply(Trim(content))) == Some(JObj(fields))
    requires "score" in fields && fields["score"] == JNum(score)
    requires "feedback" in fields && fields["feedback"] == JStr(feedback) && feedback != ""
    ensures EvaluateAnswer(question, answer, jobType, llm, rt).result
            == Returned(Evaluation(Clamp(Finite(score)), feedback))
    ensures 0.0 <= score <= 100.0 ==>
              EvaluateAnswer(question, answer, jobType, llm, rt).result == Returned(Evaluation(score, feedback))
  {
    var raw := ContentOr(Some(content), EmptyReply);
    assert raw == Trim(content);
    ParsedObject(raw, rt, fields, score, feedback);
    EvaluationOfParsed(question, answer, jobType, llm, rt, Some(content), ParsedReply(Finite(score), feedback));
  }

  /** An empty completion is parsed as "{}" and so, when JSON.parse reads that as
      an empty object, gives score 0 and the default feedback. */
  lemma EmptyReplyEvaluation(question: string, answer: string, jobType: string,
                             llm: Request -> Completion, rt: Runtime)
    requires llm(EvaluationRequest(question, answer, jobType)) == Reply(None)
    requires rt.jsonParse(CleanReply(EmptyReply)) == Some(JObj(map[]))
    ensures EvaluateAnswer(question, answer, jobType, llm, rt).result == Returned(Evaluation(0.0, DefaultFeedback))
  {
    assert ContentOr(None, EmptyReply) == EmptyReply;
    ParsedEmptyObject(EmptyReply, rt);
    EvaluationOfParsed(question, answer, jobType, llm, rt, None, ParsedReply(Finite(0.0), ""));
  }

  lemma {:induction false} LeadingDigitsOfPadded(digits: string, rest: string)
    requires AllDigits(digits)
    requires rest == [] || !IsDigit(rest[0])
    ensures LeadingDigits(digits + rest) == |digits|
    decreases |digits|
  {
    if digits != [] {
      assert (digits + rest)[1..] == digits[1..] + rest;
      LeadingDigitsOfPadded(digits[1..], rest);
    }
  }

  /** `"score": <digits>` followed by a non-digit is matched with the digits captured. */
  lemma ScoreAtKey(digits: string, rest: string)
    requires |digits| >= 1 && AllDigits(digits)
    requires rest == [] || !IsDigit(rest[0])
    ensures ScoreAt(ScoreKey + ": " + digits + rest) == Some(digits)
  {
    var t := ScoreKey + ": " + digits + rest;
    assert t[..|ScoreKey|] == ScoreKey;
    var a := t[|ScoreKey|..];
    assert a == ": " + digits + rest;
    assert LeadingSpace(a) == 0;
    var c := a[1..];
    assert c == " " + (digits + rest);
    assert !IsSpace(digits[0]);
    LeadingSpaceOfPadded(" ", digits + rest);
    assert c[1..] == digits + rest;
    LeadingDigitsOfPadded(digits, rest);
    assert (digits + rest)[..|digits|] == digits;
  }

  /** Every match of the score pattern begins with a double quote. */
  lemma NoScoreWithoutQuote(t: string)
    requires t == [] || t[0] != '"'
    ensures ScoreAt(t).None?
  {
  }

  /** The leftmost score match in a reply whose first double quote opens `"score": <digits>`. */
  lemma FirstScoreMatch(prefix: string, digits: string, rest: string)
    requires '"' !in prefix
    requires |digits| >= 1 && AllDigits(digits)
    requires rest == [] || !IsDigit(rest[0])
    ensures FirstMatch(prefix + ScoreKey + ": " + digits + rest, ScoreAt) == Some(digits)
  {
    var raw := prefix + ScoreKey + ": " + digits + rest;
    assert raw[|prefix|..] == ScoreKey + ": " + digits + rest;
    ScoreAtKey(digits, rest);
    forall j | 0 <= j < |prefix|
      ensures ScoreAt(raw[j..]).None?
    {
      assert raw[j..][0] == prefix[j] && prefix[j] in prefix;
      NoScoreWithoutQuote(raw[j..]);
    }
    FirstMatchAt(raw, ScoreAt, |prefix|);
  }

  /** When JSON parsing fails on a prose reply whose first double quote opens
      `"score": <digits>`, the score is those digits, clamped to 100. */
  lemma ProseScoreExtracted(prefix: string, digits: string, rest: string, rt: Runtime)
    requires '"' !in prefix
    requires |digits| >= 1 && AllDigits(digits)
    requires rest == [] || !IsDigit(rest[0])
    requires JsonBranch(CleanReply(prefix + ScoreKey + ": " + digits + rest), rt).None?
    ensures ParseEvaluateResponse(prefix + ScoreKey + ": " + digits + rest, rt).score
            == Finite(if DigitsValue(digits) < 100 then DigitsValue(digits) as real else 100.0)
  {
    FirstScoreMatch(prefix, digits, rest);
  }

  // ---------------------------------------------------------------- prompts over the history

  /** "Q{i+1}: question\nA{i+1}: answer". */
  function QABlock(i: nat, qa: QAPair): string
  {
    "Q" + NatToString(i + 1) + ": " + qa.question + "\nA" + NatToString(i + 1) + ": " + qa.answer
  }

  /** The numbered Q/A blocks of the history, separated by blank lines. */
  function HistoryBlocks(history: seq<QAPair>): string
  {
    Join(MapIndexed(history, QABlock), "\n\n")
  }

  /** The blocks of a history grown by one entry are the old blocks, a blank
      line and the new entry's block numbered after them. */
  lemma HistoryBlocksSnoc(history: seq<QAPair>, qa: QAPair)
    requires history != []
    ensures HistoryBlocks(history + [qa]) == HistoryBlocks(history) + "\n\n" + QABlock(|history|, qa)
  {
    MapIndexedSnoc(history, qa, QABlock);
    JoinSnoc(MapIndexed(history, QABlock), QABlock(|history|, qa), "\n\n");
  }

  /** A history of one entry renders as the single block "Q1: ...\nA1: ...". */
  lemma HistoryBlocksSingle(qa: QAPair)
    ensures HistoryBlocks([qa]) == "Q1: " + qa.question + "\nA1: " + qa.answer
  {
    assert MapIndexed([qa], QABlock) == [QABlock(0, qa)];
    assert NatToString(1) == "1";
  }

  /** The context paragraph of the question prompt: empty for an empty history. */
  function HistoryContext(history: seq<QAPair>): (r: string)
    ensures r == "" <==> history == []
    ensures history != [] ==> StartsWith(r, "\n【これまでの質疑】\n")
  {
    if |history| > 0 then
      "\n【これまでの質疑】\n" + HistoryBlocks(history) + "\n上記とは被らない、次の段階に進む質問をしてください。"
    else ""
  }

  /** The messages of a question request. */
  function RenderQuestion(jobType: string, companyType: string, difficulty: Difficulty,
                          history: seq<QAPair>): Prompt
  {
    Prompt(ModelName,
      Persona + "\n職種: " + jobType + "、企業タイプ: " + companyType
        + " を想定した面接を行います。質問は日本語で1つだけ、明確に出力してください。",
      "難易度: " + DifficultyName(difficulty) + "（" + DifficultyGuide(difficulty) + "）。"
        + HistoryContext(history) + "\n\n次の面接質問を1つ生成してください。質問文のみを返してください。",
      0.7)
  }

  /** generateInterviewQuestion: one completion call; the fixed fallback
      question replaces an empty completion, a throwing call propagates. */
  function GenerateInterviewQuestion(jobType: string, companyType: string, difficulty: Difficulty,
                                     history: seq<QAPair>, llm: Request -> Completion): (r: Traced<string>)
    ensures r.calls == [QuestionRequest(jobType, companyType, difficulty, history)]
    ensures r.result.Thrown? <==> llm(QuestionRequest(jobType, companyType, difficulty, history)).Threw?
    ensures r.result.Returned? ==> r.result.value != ""
    ensures llm(QuestionRequest(jobType, companyType, difficulty, history)) == Reply(None)
            ==> r.result == Returned(FallbackQuestion)
  {
    var prompt := QuestionRequest(jobType, companyType, difficulty, history);
    match llm(prompt)
    case Threw => Traced(Thrown, [prompt])
    case Reply(content) => Traced(Returned(ContentOr(content, FallbackQuestion)), [prompt])
  }

  /** The score tag of a summary item. */
  function ScoreTag(score: real, rt: Runtime): string
  {
    " [スコア: " + rt.numberToString(score) + "]"
  }

  const FeedbackLead: string := "\nフィードバック: "

  /** The feedback line of a summary item. */
  function FeedbackLine(feedback: string): string
  {
    FeedbackLead + feedback
  }

  /** `qa.feedback` is truthy. */
  predicate HasFeedback(qa: QAPair)
  {
    qa.feedback.Some? && qa.feedback.value != ""
  }

  /** One item of the session summary: the Q/A block, a score tag when the
      score is present, and a feedback line when the feedback is non-empty. */
  function SummaryBlock(i: nat, qa: QAPair, rt: Runtime): (r: string)
    ensures StartsWith(r, QABlock(i, qa))
    ensures qa.score.Some? ==> StartsWith(r, QABlock(i, qa) + ScoreTag(qa.score.value, rt))
    ensures qa.score.None? ==> r == QABlock(i, qa) || StartsWith(r[|QABlock(i, qa)|..], FeedbackLead)
    ensures HasFeedback(qa) ==>
              |FeedbackLine(qa.feedback.value)| <= |r|
              && r[|r| - |FeedbackLine(qa.feedback.value)|..] == FeedbackLine(qa.feedback.value)
    ensures !HasFeedback(qa) && qa.score.Some? ==> r == QABlock(i, qa) + ScoreTag(qa.score.value, rt)
    ensures !HasFeedback(qa) && qa.score.None? ==> r == QABlock(i, qa)
  {
    var block := QABlock(i, qa);
    var tagged := block + (if qa.score.Some? then ScoreTag(qa.score.value, rt) else "");
    var r := tagged + (if HasFeedback(qa) then FeedbackLine(qa.feedback.value) else "");
    assert r[..|block|] == block;
    assert qa.score.Some? ==> r[..|tagged|] == tagged;
    assert HasFeedback(qa) ==> r[|tagged|..] == FeedbackLine(qa.feedback.value);
    assert qa.score.None? && HasFeedback(qa) ==> r[|block|..][..|FeedbackLead|] == FeedbackLead;
    r
  }

  function SessionSummary(allQA: seq<QAPair>, rt: Runtime): string
  {
    Join(MapIndexed(allQA, (i, qa) => SummaryBlock(i, qa, rt)), "\n\n")
  }

  /** The messages of a summary request. */
  function RenderSummary(allQA: seq<QAPair>, rt: Runtime): Prompt
  {
    Prompt(ModelName,
      Persona + "\n面接セッション全体の総評を、日本語で簡潔に（300字程度）書いてください。強み・改善点・総合所見のバランスを取ってください。",
      "【本日の面接のやり取り】\n" + SessionSummary(allQA, rt) + "\n\n上記を踏まえ、候補者への総評を1つの文章で出力してください。",
      0.4)
  }

  /** The messages a request sends. */
  function Render(r: Request, rt: Runtime): Prompt
  {
    match r
    case EvaluationRequest(question, answer, jobType) => RenderEvaluation(question, answer, jobType)
    case QuestionRequest(jobType, companyType, difficulty, history) =>
      RenderQuestion(jobType, companyType, difficulty, history)
    case SummaryRequest(allQA) => RenderSummary(allQA, rt)
  }

  /** generateFinalFeedback: an empty list short-circuits without a model
      call; otherwise one call, with a fixed text replacing an empty completion. */
  function GenerateFinalFeedback(allQA: seq<QAPair>, llm: Request -> Completion, rt: Runtime): (r: Traced<string>)
    ensures allQA == [] ==> r == Traced(Returned(NoAnswersFeedback), [])
    ensures allQA != [] ==> r.calls == [SummaryRequest(allQA)]
    ensures allQA != [] ==> (r.result.Thrown? <==> llm(SummaryRequest(allQA)).Threw?)
    ensures allQA != [] && llm(SummaryRequest(allQA)) == Reply(None) ==> r.result == Returned(SummaryFallback)
    ensures r.result.Returned? ==> r.result.value != ""
  {
    if |allQA| == 0 then Traced(Returned(NoAnswersFeedback), [])
    else
      var prompt := SummaryRequest(allQA);
      match llm(prompt)
      case Threw => Traced(Thrown, [prompt])
      case Reply(content) => Traced(Returned(ContentOr(content, SummaryFallback)), [prompt])
  }
}
