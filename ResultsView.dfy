/**
 * `components/Results.tsx`: what the result page shows for an
 * `AnalysisResult`, as an abstract view. The markup is reduced to the
 * decisions it makes: the severity class and icon of each card, the
 * no-risk panel or the list of cards, the rewrite block of a card and the
 * disclaimer.
 */
module ResultsView {
  import opened Wrappers
  import opened Strings
  import opened Remote

  const HighClass: string := "bg-red-100 text-red-800 border-red-300"
  const MediumClass: string := "bg-yellow-100 text-yellow-800 border-yellow-300"
  const LowClass: string := "bg-blue-100 text-blue-800 border-blue-300"
  const DefaultClass: string := "bg-gray-100 text-gray-800 border-gray-300"

  /** `getSeverityColor`: the severity is lower-cased before the lookup. */
  function SeverityColor(severity: string): (c: string)
    ensures c == HighClass <==> ToLower(severity) == "high"
    ensures c == MediumClass <==> ToLower(severity) == "medium"
    ensures c == LowClass <==> ToLower(severity) == "low"
    ensures c == DefaultClass <==> ToLower(severity) !in {"high", "medium", "low"}
  {
    var key := ToLower(severity);
    if key == "high" then HighClass
    else if key == "medium" then MediumClass
    else if key == "low" then LowClass
    else DefaultClass
  }

  /** Severities that differ only in the case of ASCII letters get the same class. */
  lemma SeverityColorIgnoresCase(a: string, b: string)
    requires |a| == |b|
    requires forall i :: 0 <= i < |a| ==> LowerChar(a[i]) == LowerChar(b[i])
    ensures SeverityColor(a) == SeverityColor(b)
  {
    assert ToLower(a) == ToLower(b);
  }

  /** `"HIGH"` and `"High"` count as high, and an unknown severity falls back to gray. */
  lemma SeverityColorExamples()
    ensures SeverityColor("HIGH") == HighClass && SeverityColor("High") == HighClass
    ensures SeverityColor("critical") == DefaultClass
  {
    LowerCaseUnchanged("high");
    SeverityColorIgnoresCase("HIGH", "high");
    SeverityColorIgnoresCase("High", "high");
    LowerCaseUnchanged("critical");
  }

  /** Text without capital letters is its own lower case. */
  lemma LowerCaseUnchanged(s: string)
    requires forall i :: 0 <= i < |s| ==> !('A' <= s[i] <= 'Z')
    ensures ToLower(s) == s
  {
  }

  /** The icons `getSeverityIcon` can return; the check-circle of the no-risk panel is not one of them. */
  datatype Icon = AlertTriangle

  /** `getSeverityIcon`: both branches of the switch return the same triangle. */
  function SeverityIcon(severity: string): (i: Icon)
    ensures i == AlertTriangle
  {
    match ToLower(severity)
    case "high" => AlertTriangle
    case "medium" => AlertTriangle
    case _ => AlertTriangle
  }

  /** The colour of the "Risks Found" figure. */
  datatype CountTone = Red | Green

  /** The document summary box at the top. */
  datatype Overview = Overview(documentName: string, textLength: int, risksFound: int, tone: CountTone, analysisId: int)

  /** One risk card; `rewrite` is the "AI-Suggested Safer Alternative" block, when one is shown. */
  datatype Card = Card(
    riskType: string,
    explanation: string,
    clause: string,
    severity: string,
    colorClass: string,
    icon: Icon,
    rewrite: Option<string>)

  /** Below the overview: the "Great News!" panel, or the heading with the count and the cards. */
  datatype Body = NoRiskPanel | RiskList(heading: int, cards: seq<Card>)

  datatype View = View(overview: Overview, body: Body, disclaimer: bool)

  /** The card of one risk: the rewrite block only for a truthy `suggested_rewrite`. */
  function CardOf(risk: Risk): (c: Card)
    ensures c.rewrite.Some? <==> Truthy(risk.suggestedRewrite)
    ensures c.rewrite.Some? ==> c.rewrite.value == risk.suggestedRewrite.value
    ensures c.colorClass == SeverityColor(risk.severity) && c.severity == risk.severity
  {
    Card(
      risk.riskType,
      risk.explanation,
      risk.clause,
      risk.severity,
      SeverityColor(risk.severity),
      SeverityIcon(risk.severity),
      if Truthy(risk.suggestedRewrite) then risk.suggestedRewrite else None)
  }

  /** `risks.map(...)`: one card per risk, in array order. */
  function Cards(risks: seq<Risk>): (cards: seq<Card>)
    ensures |cards| == |risks|
    ensures forall k :: 0 <= k < |risks| ==> cards[k] == CardOf(risks[k])
  {
    if risks == [] then [] else [CardOf(risks[0])] + Cards(risks[1..])
  }

  /** The whole page for `result`. */
  function Render(result: AnalysisResult): (v: View)
    ensures v.disclaimer
    ensures v.overview.risksFound == result.risksFound
    ensures v.overview.tone == Red <==> result.risksFound > 0
    ensures v.body.NoRiskPanel? <==> result.risksFound == 0
    ensures v.body.RiskList? ==> v.body.heading == result.risksFound && v.body.cards == Cards(result.risks)
  {
    var tone := if result.risksFound > 0 then Red else Green;
    var overview := Overview(result.documentName, result.textLength, result.risksFound, tone, result.analysisId);
    var body := if result.risksFound == 0 then NoRiskPanel else RiskList(result.risksFound, Cards(result.risks));
    View(overview, body, true)
  }

  /** The branch follows `risks_found`, not the list: a count of 0 hides every card, a non-zero count shows them all. */
  lemma BranchFollowsCount(result: AnalysisResult)
    ensures result.risksFound == 0 ==> Render(result).body == NoRiskPanel
    ensures result.risksFound != 0 ==> |Render(result).body.cards| == |result.risks|
  {
  }

  /** In the list, card `k` shows risk `k`, with its rewrite exactly when that risk has one. */
  lemma CardShowsRisk(result: AnalysisResult, k: nat)
    requires result.risksFound != 0 && k < |result.risks|
    ensures var card := Render(result).body.cards[k];
      && card.clause == result.risks[k].clause
      && card.riskType == result.risks[k].riskType
      && card.colorClass == SeverityColor(result.risks[k].severity)
      && (card.rewrite.Some? <==> Truthy(result.risks[k].suggestedRewrite))
  {
  }
}
