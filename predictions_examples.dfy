/**
 * Worked examples of the accuracy scorer.
 */
module PredictionsExamples {
  import opened Split
  import opened Predictions

  /** Two hits on a fresh score give 0.5 and then 0.75. */
  lemma TwoHits()
    ensures MeanWithOnes(0.0, 1) == 0.5
    ensures MeanWithOnes(0.0, 2) == 0.75
  {
    MeanWithOnesClosedForm(0.0, 1);
    MeanWithOnesClosedForm(0.0, 2);
  }

  /**
   * A fresh report, an utterance whose intent is predicted and whose only
   * label is matched: the intent scores a point, and the entity kind and the
   * overall accuracy are each averaged with 1 once.
   */
  lemma OneGoodAnswer(report: Report, u: Utterance, p: Prediction, name: string)
    requires name == "dst_city"
    requires WellFormed(report) && forall k :: k in report ==> report[k] == 0.0
    requires u.intentName == p.topIntent
    requires |u.entityLabels| == 1 && u.entityLabels[0].entityName == name
    requires p.instances == Some(map[name := [Instance(Some(name))]])
    ensures AllIndexable(p, u.entityLabels)
    ensures ScoreUtterance(report, u, p)[IntentKey] == 1.0
    ensures ScoreUtterance(report, u, p)[name] == 0.5
    ensures ScoreUtterance(report, u, p)[AccuracyKey] == 0.5
  {
    var scored := ScoreIntent(report, u.intentName, p.topIntent);
    assert u.entityLabels[..0] == [];
    assert TypeMatches(p, name);
    assert name in ReportKeys;
    assert ScoreLabels(scored, u.entityLabels, p) == (Update(scored, name, 1.0, Mean), 1);
  }

  /** A wrong intent and no labels: the intent score is unchanged and the overall accuracy is averaged with 0. */
  lemma WrongIntentNoLabels(report: Report, u: Utterance, p: Prediction)
    requires WellFormed(report)
    requires u.intentName != p.topIntent && u.entityLabels == []
    ensures AllIndexable(p, u.entityLabels)
    ensures ScoreUtterance(report, u, p)[IntentKey] == report[IntentKey]
    ensures ScoreUtterance(report, u, p)[AccuracyKey] == report[AccuracyKey] / 2.0
  {
  }
}
