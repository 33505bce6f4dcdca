/** The helpers of the interview result page (app/interview/result/page.tsx):
    the "good points" / "to improve" extraction from a feedback text, the
    radar-chart points, the share text, and the guard for a missing
    result. Numbers are printed by an oracle `str` (JavaScript's
    number-to-string conversion). */
module ResultPage {
  import opened Wrappers
  import opened Text

  const TotalMark: nat := 100

  /** `InterviewResultItem` and `InterviewResult`. */
  datatype Item = Item(question: string, answer: string, score: real, feedback: string)
  datatype InterviewResult = InterviewResult(totalScore: real, finalFeedback: Option<string>, items: seq<Item>)

  const GoodLabels: seq<string> := ["良かった点", "良い点", "強み", "よかった点"]
  const ImproveLabels: seq<string> := ["改善点", "伸ばす点", "課題"]

  /** `[:：]`: an ASCII or a full-width colon. */
  predicate IsColon(c: char)
  {
    c == ':' || c == '：'
  }

  /** `r` starts with the label followed by a colon. */
  predicate LabelledAt(r: string, lab: string)
  {
    |lab| < |r| && r[..|lab|] == lab && IsColon(r[|lab|])
  }

  /** The length of the first alternative's label and colon at the start of `r`. */
  function LabelColon(r: string, labels: seq<string>): (n: Option<nat>)
    ensures n.None? <==> forall l | l in labels :: !LabelledAt(r, l)
    ensures n.Some? ==> n.value <= |r| && exists l | l in labels :: LabelledAt(r, l) && n.value == |l| + 1
  {
    if labels == [] then None
    else if LabelledAt(r, labels[0]) then Some(|labels[0]| + 1)
    else
      var n := LabelColon(r, labels[1..]);
      assert forall l | l in labels[1..] :: l in labels;
      assert forall l | l in labels :: l == labels[0] || l in labels[1..];
      n
  }

  /** The text up to (not including) the first line break. */
  function Line(r: string): (line: string)
    ensures StartsWith(r, line) && '\n' !in line
    ensures |line| < |r| ==> r[|line|] == '\n'
  {
    if '\n' in r then r[..IndexOf(r, '\n')] else r
  }

  /** The last position that does not hold a line break. */
  function LastNonNewline(r: string): (k: Option<nat>)
    ensures k.Some? ==> k.value < |r| && r[k.value] != '\n' && forall i | k.value < i < |r| :: r[i] == '\n'
    ensures k.None? ==> forall i | 0 <= i < |r| :: r[i] == '\n'
  {
    if r == [] then None
    else if r[|r| - 1] != '\n' then Some(|r| - 1)
    else LastNonNewline(r[..|r| - 1])
  }

  /** `\s*([^\n]+)` at the start of `r`: the greedy white space, then the rest
      of that line. When only white space is left, the white space gives
      characters back until one that is not a line break can start the group. */
  function Capture(r: string): (c: Option<string>)
    ensures LeadingSpace(r) < |r| ==> c == Some(Line(r[LeadingSpace(r)..]))
    ensures c.Some? ==> c.value != [] && '\n' !in c.value
    ensures LeadingSpace(r) == |r| && c.Some? ==> AllSpace(c.value)
  {
    var w := LeadingSpace(r);
    if w < |r| then Some(Line(r[w..]))
    else
      match LastNonNewline(r)
      case None => None
      case Some(k) =>
        assert IsSpace(r[..w][k]);
        Some([r[k]])
  }

  /** The regular expression tried at the start of `r`. */
  function MatchAt(labels: seq<string>): string -> Option<string>
  {
    r => match LabelColon(r, labels)
         case None => None
         case Some(n) => Capture(r[n..])
  }

  /** One `feedback.match(...)`, then `m ? m[1].trim() : ""`. */
  function Extract(feedback: string, labels: seq<string>): (part: string)
    ensures (forall j | 0 <= j <= |feedback| :: LabelColon(feedback[j..], labels).None?) ==> part == ""
  {
    match FirstMatch(feedback, MatchAt(labels))
    case None => ""
    case Some(c) => Trim(c)
  }

  /** `j` is the first position of `feedback` where a label and its colon start. */
  predicate FirstLabelAt(feedback: string, labels: seq<string>, j: nat)
  {
    j <= |feedback| && LabelColon(feedback[j..], labels).Some?
    && forall k | 0 <= k < j :: LabelColon(feedback[k..], labels).None?
  }

  /** The text after the label and colon at `j` ("" where none starts). */
  function AfterLabel(feedback: string, labels: seq<string>, j: nat): string
  {
    if j <= |feedback| && LabelColon(feedback[j..], labels).Some?
    then feedback[j..][LabelColon(feedback[j..], labels).value..]
    else ""
  }

  /** The first labelled position decides the part: the rest of its line
      after the colon and the white space, trimmed. */
  lemma FirstLabelDecides(feedback: string, labels: seq<string>, j: nat)
    requires FirstLabelAt(feedback, labels, j)
    requires var rest := AfterLabel(feedback, labels, j); LeadingSpace(rest) < |rest|
    ensures var rest := AfterLabel(feedback, labels, j);
            Extract(feedback, labels) == Trim(Line(rest[LeadingSpace(rest)..]))
  {
    var rest := AfterLabel(feedback, labels, j);
    assert MatchAt(labels)(feedback[j..]) == Capture(rest);
    FirstMatchAt(feedback, MatchAt(labels), j);
  }

  /** What one extracted part is: "" when no label and colon occur, and the
      trimmed rest of the first labelled line when that holds more than
      white space. */
  lemma ExtractMeaning(feedback: string, labels: seq<string>)
    ensures (forall j | 0 <= j <= |feedback| :: LabelColon(feedback[j..], labels).None?) ==>
              Extract(feedback, labels) == ""
    ensures forall j: nat | FirstLabelAt(feedback, labels, j)
                            && LeadingSpace(AfterLabel(feedback, labels, j)) < |AfterLabel(feedback, labels, j)| ::
              Extract(feedback, labels)
              == Trim(Line(AfterLabel(feedback, labels, j)[LeadingSpace(AfterLabel(feedback, labels, j))..]))
  {
    forall j: nat | FirstLabelAt(feedback, labels, j)
                    && LeadingSpace(AfterLabel(feedback, labels, j)) < |AfterLabel(feedback, labels, j)|
      ensures Extract(feedback, labels)
              == Trim(Line(AfterLabel(feedback, labels, j)[LeadingSpace(AfterLabel(feedback, labels, j))..]))
    {
      FirstLabelDecides(feedback, labels, j);
    }
  }

  /** `splitFeedback`: the two parts are extracted separately, each from the whole text. */
  datatype Parts = Parts(good: string, improve: string)

  function SplitFeedback(feedback: string): (p: Parts)
    ensures (forall j | 0 <= j <= |feedback| :: LabelColon(feedback[j..], GoodLabels).None?) ==> p.good == ""
    ensures forall j: nat | FirstLabelAt(feedback, GoodLabels, j)
                            && LeadingSpace(AfterLabel(feedback, GoodLabels, j)) < |AfterLabel(feedback, GoodLabels, j)| ::
              p.good == Trim(Line(AfterLabel(feedback, GoodLabels, j)[LeadingSpace(AfterLabel(feedback, GoodLabels, j))..]))
    ensures (forall j | 0 <= j <= |feedback| :: LabelColon(feedback[j..], ImproveLabels).None?) ==> p.improve == ""
    ensures forall j: nat | FirstLabelAt(feedback, ImproveLabels, j)
                            && LeadingSpace(AfterLabel(feedback, ImproveLabels, j)) < |AfterLabel(feedback, ImproveLabels, j)| ::
              p.improve == Trim(Line(AfterLabel(feedback, ImproveLabels, j)[LeadingSpace(AfterLabel(feedback, ImproveLabels, j))..]))
  {
    ExtractMeaning(feedback, GoodLabels);
    ExtractMeaning(feedback, ImproveLabels);
    Parts(Extract(feedback, GoodLabels), Extract(feedback, ImproveLabels))
  }

  /** How an item's feedback is shown: the extracted parts (each only when
      non-empty), or the raw text when neither was found. */
  datatype FeedbackView = Labelled(good: Option<string>, improve: Option<string>) | Raw(text: string)

  function ItemFeedback(feedback: string): (v: FeedbackView)
    ensures v.Raw? <==> SplitFeedback(feedback) == Parts("", "")
    ensures v.Raw? ==> v.text == feedback
    ensures v.Labelled? ==> (v.good.Some? || v.improve.Some?)
                            && (v.good.Some? <==> SplitFeedback(feedback).good != "")
                            && (v.good.Some? ==> v.good.value == SplitFeedback(feedback).good)
                            && (v.improve.Some? <==> SplitFeedback(feedback).improve != "")
                            && (v.improve.Some? ==> v.improve.value == SplitFeedback(feedback).improve)
  {
    var parts := SplitFeedback(feedback);
    if parts.good != "" || parts.improve != "" then
      Labelled(if parts.good != "" then Some(parts.good) else None,
               if parts.improve != "" then Some(parts.improve) else None)
    else Raw(feedback)
  }

  /** A feedback text without any label and colon is shown as it is. */
  lemma UnlabelledShownRaw(feedback: string)
    requires forall j | 0 <= j <= |feedback| :: LabelColon(feedback[j..], GoodLabels).None?
    requires forall j | 0 <= j <= |feedback| :: LabelColon(feedback[j..], ImproveLabels).None?
    ensures ItemFeedback(feedback) == Raw(feedback)
  {
  }

  /** A point of the radar chart. */
  datatype RadarPoint = RadarPoint(subject: string, score: real, fullMark: nat)

  function RadarSubject(i: nat): string
  {
    "Q" + NatToString(i + 1)
  }

  /** `radarData`: one point per item, in item order. */
  function RadarData(items: seq<Item>): (points: seq<RadarPoint>)
    ensures |points| == |items|
    ensures forall i | 0 <= i < |items| ::
              points[i].score == items[i].score && points[i].fullMark == TotalMark
              && points[i].subject == RadarSubject(i)
  {
    seq(|items|, i requires 0 <= i < |items| => RadarPoint(RadarSubject(i), items[i].score, TotalMark))
  }

  /** No two radar points share a subject, so each axis names one question. */
  lemma RadarSubjectsDistinct(items: seq<Item>, i: nat, j: nat)
    requires i < |items| && j < |items| && i != j
    ensures RadarData(items)[i].subject != RadarData(items)[j].subject
  {
    if RadarSubject(i) == RadarSubject(j) {
      assert RadarSubject(i)[1..] == NatToString(i + 1);
      assert RadarSubject(j)[1..] == NatToString(j + 1);
      NatToStringInjective(i + 1, j + 1);
    }
  }

  function TotalLine(result: InterviewResult, str: real -> string): string
  {
    "面接練習 総合スコア: " + str(result.totalScore) + "/100"
  }

  /** `result.finalFeedback ? ... : ""`. */
  function SummaryLine(result: InterviewResult): string
  {
    if result.finalFeedback.Some? && result.finalFeedback.value != "" then "\n総評: " + result.finalFeedback.value
    else ""
  }

  function ShareBlock(i: nat, item: Item, str: real -> string): string
  {
    "\nQ" + NatToString(i + 1) + ": " + item.question + "\nスコア: " + str(item.score) + "\n" + item.feedback
  }

  function ShareBlockOf(str: real -> string): (nat, Item) -> string
  {
    (i: nat, item: Item) => ShareBlock(i, item, str)
  }

  function ShareBlocks(items: seq<Item>, str: real -> string): string
  {
    Join(MapIndexed(items, ShareBlockOf(str)), "\n")
  }

  /** The text `handleShare` shares. */
  function ShareText(result: InterviewResult, str: real -> string): (text: string)
    ensures StartsWith(text, TotalLine(result, str))
    ensures text[|TotalLine(result, str)|..] == SummaryLine(result) + ShareBlocks(result.items, str)
  {
    var text := TotalLine(result, str) + SummaryLine(result) + ShareBlocks(result.items, str);
    assert text[..|TotalLine(result, str)|] == TotalLine(result, str);
    text
  }

  /** The summary line is there exactly when there is a final feedback. */
  lemma SummaryLineWhenSet(result: InterviewResult)
    ensures SummaryLine(result) == "" <==> result.finalFeedback.None? || result.finalFeedback.value == ""
  {
  }

  /** Items are shared in order: one more item adds its block at the end. */
  lemma ShareTextSnoc(result: InterviewResult, item: Item, str: real -> string)
    requires result.items != []
    ensures ShareText(result.(items := result.items + [item]), str)
            == ShareText(result, str) + "\n" + ShareBlock(|result.items|, item, str)
  {
    var f := ShareBlockOf(str);
    MapIndexedSnoc(result.items, item, f);
    JoinSnoc(MapIndexed(result.items, f), f(|result.items|, item), "\n");
  }

  /** The page once mounted: the no-result view, or the chart and the
      feedback of each item. */
  datatype Page = NoResult | Results(radar: seq<RadarPoint>, feedback: seq<FeedbackView>)

  /** Reading the stored result: an empty or missing entry and a parse
      failure give no result. */
  function LoadResult(raw: Option<string>, parse: string -> Option<InterviewResult>): (r: Option<InterviewResult>)
    ensures raw.None? || raw.value == "" ==> r.None?
    ensures raw.Some? && raw.value != "" ==> r == parse(raw.value)
  {
    if raw.None? || raw.value == "" then None else parse(raw.value)
  }

  function RenderPage(result: Option<InterviewResult>): (p: Page)
    ensures p.NoResult? <==> result.None? || result.value.items == []
    ensures p.Results? ==> p.radar == RadarData(result.value.items)
                           && |p.feedback| == |result.value.items|
                           && forall i | 0 <= i < |p.feedback| :: p.feedback[i] == ItemFeedback(result.value.items[i].feedback)
  {
    if result.None? || |result.value.items| == 0 then NoResult
    else
      var items := result.value.items;
      Results(RadarData(items), seq(|items|, i requires 0 <= i < |items| => ItemFeedback(items[i].feedback)))
  }
}
