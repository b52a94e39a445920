/**
 * The result card (components/research-result.tsx): the quality badge's
 * colour and label, and which optional sections are shown. JavaScript
 * truthiness decides the optional parts: an empty string is hidden, an
 * array (even an empty one) is shown.
 */
module ResearchResult {
  import opened Types

  const HighColor := "bg-green-500/10 text-green-600 dark:text-green-400"
  const MediumColor := "bg-yellow-500/10 text-yellow-600 dark:text-yellow-400"
  const LowColor := "bg-red-500/10 text-red-600 dark:text-red-400"

  /** `getQualityColor`: green from 80, yellow from 60, red below. */
  function QualityColor(score: int): (c: string)
    ensures c == HighColor <==> score >= 80
    ensures c == MediumColor <==> 60 <= score < 80
    ensures c == LowColor <==> score < 60
  {
    if score >= 80 then HighColor
    else if score >= 60 then MediumColor
    else LowColor
  }

  /** `getQualityLabel`: the label names the band the score falls in. */
  function QualityLabel(score: int): (l: string)
    ensures l == "High Quality" <==> score >= 80
    ensures l == "Medium Quality" <==> 60 <= score < 80
    ensures l == "Low Quality" <==> score < 60
  {
    if score >= 80 then "High Quality"
    else if score >= 60 then "Medium Quality"
    else "Low Quality"
  }

  /** The order of the tiers, lowest first. */
  function LabelRank(name: string): nat {
    if name == "High Quality" then 2 else if name == "Medium Quality" then 1 else 0
  }

  /** Colour and label use the same thresholds: green is High, yellow Medium, red Low. */
  lemma ColorAgreesWithLabel(score: int)
    ensures QualityColor(score) == HighColor <==> QualityLabel(score) == "High Quality"
    ensures QualityColor(score) == MediumColor <==> QualityLabel(score) == "Medium Quality"
    ensures QualityColor(score) == LowColor <==> QualityLabel(score) == "Low Quality"
  {
  }

  /** Raising the score never lowers the tier. */
  lemma TierMonotone(a: int, b: int)
    requires a <= b
    ensures LabelRank(QualityLabel(a)) <= LabelRank(QualityLabel(b))
  {
  }

  /** How the plan section renders: one paragraph for a text, one bullet per step for a list. */
  datatype PlanView = Paragraph(text: string) | Bullets(items: seq<string>)

  /**
   * `result.research_plan && ...`: the plan section, if shown. It shows
   * exactly when the plan is truthy (an empty text is hidden, an empty list
   * is shown); a text is shown whole, a list item by item in order.
   */
  function PlanSection(r: ResearchResponse): (v: Option<PlanView>)
    ensures v.Some? <==>
      r.researchPlan.Some? && (r.researchPlan.value.PlanSteps? || r.researchPlan.value.text != "")
    ensures v.Some? && r.researchPlan.value.PlanText? ==> v.value == Paragraph(r.researchPlan.value.text)
    ensures v.Some? && r.researchPlan.value.PlanSteps? ==> v.value == Bullets(r.researchPlan.value.steps)
  {
    match r.researchPlan
    case None => None
    case Some(PlanText(text)) => if text == "" then None else Some(Paragraph(text))
    case Some(PlanSteps(steps)) => Some(Bullets(steps))
  }

  /** One source link: its title, its target and, when truthy, its snippet. */
  datatype SourceEntry = SourceEntry(title: string, url: string, snippet: Option<string>)

  function Entry(s: Source): SourceEntry {
    SourceEntry(s.title, s.url, if s.snippet.Some? && s.snippet.value != "" then s.snippet else None)
  }

  /** `result.sources && result.sources.length > 0 && ...`: the source list, if shown. */
  function SourcesSection(r: ResearchResponse): (v: Option<seq<SourceEntry>>)
    ensures v.Some? <==> r.sources.Some? && |r.sources.value| > 0
    ensures v.Some? ==> |v.value| == |r.sources.value|
    ensures v.Some? ==> forall i :: 0 <= i < |v.value| ==>
      && v.value[i].title == r.sources.value[i].title
      && v.value[i].url == r.sources.value[i].url
      && (v.value[i].snippet.Some? <==> r.sources.value[i].snippet.Some? && r.sources.value[i].snippet.value != "")
      && (v.value[i].snippet.Some? ==> v.value[i].snippet == r.sources.value[i].snippet)
  {
    match r.sources
    case None => None
    case Some(list) =>
      if |list| == 0 then None
      else Some(seq(|list|, i requires 0 <= i < |list| => Entry(list[i])))
  }

  /** `result.created_at && ...`: the date badge, if shown. */
  function DateBadge(r: ResearchResponse): (d: Option<string>)
    ensures d.Some? <==> r.createdAt.Some? && r.createdAt.value != ""
    ensures d.Some? ==> d == r.createdAt
  {
    if r.createdAt.Some? && r.createdAt.value != "" then r.createdAt else None
  }

  /** The end-to-end example: a score of 85 is labelled High Quality and coloured green. */
  lemma ScoreEightyFiveIsHigh()
    ensures QualityLabel(85) == "High Quality" && QualityColor(85) == HighColor
  {
  }
}
