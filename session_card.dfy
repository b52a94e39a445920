/**
 * One card of the history grid (components/session-card.tsx): the answer
 * excerpt and the quality badge's colour.
 */
module SessionCard {
  import opened Types
  import RR = ResearchResult

  /** The number of answer characters a card shows before cutting. */
  const ExcerptLength := 150

  /** `getQualityColor`, as the card defines it: the same colour as the result view gives every score. */
  function QualityColor(score: int): (c: string)
    ensures c == RR.QualityColor(score)
  {
    if score >= 80 then "bg-green-500/10 text-green-600 dark:text-green-400"
    else if score >= 60 then "bg-yellow-500/10 text-yellow-600 dark:text-yellow-400"
    else "bg-red-500/10 text-red-600 dark:text-red-400"
  }

  /** `truncateText`: short text unchanged, otherwise its first maxLength characters and "...". */
  function TruncateText(text: string, maxLength: nat): (r: string)
    ensures |text| <= maxLength ==> r == text
    ensures |text| > maxLength ==> |r| == maxLength + 3 && r[maxLength..] == "..."
    ensures var keep := if |text| <= maxLength then |text| else maxLength;
      |r| >= keep && r[..keep] == text[..keep]
  {
    if |text| <= maxLength then text else text[..maxLength] + "..."
  }

  /** The output is never longer than the limit plus the ellipsis, and is the input when it fits. */
  lemma TruncateBounds(text: string, maxLength: nat)
    ensures |TruncateText(text, maxLength)| <= maxLength + 3
    ensures |TruncateText(text, maxLength)| <= maxLength ==> TruncateText(text, maxLength) == text
  {
  }

  /** `truncateText(session.answer || '', 150)` */
  function AnswerExcerpt(session: Session): string {
    TruncateText(session.answer, ExcerptLength)
  }

  /** An empty answer gives an empty excerpt. */
  lemma EmptyAnswerEmptyExcerpt(session: Session)
    requires session.answer == ""
    ensures AnswerExcerpt(session) == ""
  {
  }

}
