/** The radar chart's data (components/ResultChart.tsx): one row per
    question, labelled with the short title, plotting the stored value
    (0 when unanswered) against a fixed full mark. */
module Chart {
  import opened Catalog
  import opened Scoring

  datatype ChartRow = ChartRow(subject: string, a: int, fullMark: int)

  /** The outer ring of the chart. */
  const FullMark: int := 5

  /** `questions.map(q => ({ subject: q.shortTitle, A: answers[q.id] || 0, fullMark: 5 }))`.
      A missing answer reads as `undefined`, which `|| 0` turns into 0; a
      stored 0 also gives 0, so the row holds the stored value whenever there
      is one. */
  function ChartData(qs: seq<Question>, answers: Answers): (r: seq<ChartRow>)
    ensures |r| == |qs|
    ensures forall i :: 0 <= i < |qs| ==>
      && r[i].subject == qs[i].shortTitle
      && r[i].fullMark == FullMark
      && (qs[i].id in answers ==> r[i].a == answers[qs[i].id])
      && (qs[i].id !in answers ==> r[i].a == 0)
  {
    if |qs| == 0 then []
    else
      var q := qs[0];
      assert forall i :: 1 <= i < |qs| ==> qs[i] == qs[1..][i - 1];
      [ChartRow(q.shortTitle, if q.id in answers then answers[q.id] else 0, FullMark)] + ChartData(qs[1..], answers)
  }

  /** The plotted values, added up. */
  function PlottedSum(rows: seq<ChartRow>): int {
    if |rows| == 0 then 0 else rows[0].a + PlottedSum(rows[1..])
  }

  /** The plotted values add up to the per-question sum of the answers. */
  lemma {:induction false} PlottedSumIsSumOver(qs: seq<Question>, answers: Answers)
    ensures PlottedSum(ChartData(qs, answers)) == SumOver(qs, answers)
    decreases |qs|
  {
    if |qs| > 0 {
      PlottedSumIsSumOver(qs[1..], answers);
      var rows := ChartData(qs, answers);
      assert rows[1..] == ChartData(qs[1..], answers);
    }
  }

  /** The chart and the score agree: when every stored key is a question of
      the chart, the plotted values add up to the diagnosis total. */
  lemma ChartSumIsTotal(qs: seq<Question>, answers: Answers)
    requires DistinctIds(qs) && KeysAmong(qs, answers)
    ensures PlottedSum(ChartData(qs, answers)) == Total(answers)
  {
    PlottedSumIsSumOver(qs, answers);
    TotalIsSumOver(qs, answers);
  }

  /** For the catalog and stored option values every point lies on the
      chart's 0..5 scale, and at least 1 once the question is answered. */
  lemma ChartWithinScale(answers: Answers, i: int)
    requires ValidAnswers(answers) && 0 <= i < |Questions|
    ensures 0 <= ChartData(Questions, answers)[i].a <= ChartData(Questions, answers)[i].fullMark
    ensures Questions[i].id in answers ==> 1 <= ChartData(Questions, answers)[i].a
  {
    if Questions[i].id in answers {
      ValidRange(answers, Questions[i].id);
    }
  }
}
