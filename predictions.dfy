/**
 * The accuracy scorer of tools/do_predictions.py: a Predict object keeps a
 * report of seven running scores, and scores each test utterance against
 * what the prediction service answers for its text.
 *
 * The service call is a function parameter (`oracle`): the model says what
 * the report is for every possible set of answers.
 */
module Predictions {
  import opened Split

  /** The key of the overall entity accuracy. */
  const AccuracyKey: string := "accuracy"

  /** The keys of the report: the intent, the five entity kinds and the overall accuracy. */
  const ReportKeys: set<string> := {IntentKey, "dst_city", "or_city", "str_date", "end_date", "budget", AccuracyKey}

  /** The action that makes an update a pairwise mean instead of a sum. */
  const Mean: Option<string> := Some("mean")

  /** One recognised occurrence of an entity; its "type" field may be missing. */
  datatype Instance = Instance(entityType: Option<string>)

  /**
   * The part of a service answer the scorer reads: the top intent and, when
   * present, the `$instance` table of the predicted entities.
   */
  datatype Prediction = Prediction(topIntent: string, instances: Option<map<string, seq<Instance>>>)

  /** How many utterances to score: "all", or a count. */
  datatype Count = All | Limit(n: int)

  type Report = map<string, real>

  // ---------------------------------------------------------------------------
  // Specification of one update and of the two checks
  // ---------------------------------------------------------------------------

  /** The value an update stores: the old value plus the new one, halved for a mean. */
  function Updated(current: real, value: real, action: Option<string>): real
  {
    if action == Mean then (value + current) / 2.0 else value + current
  }

  function Update(report: Report, key: string, value: real, action: Option<string>): Report
    requires key in report
  {
    report[key := Updated(report[key], value, action)]
  }

  /** The intent check: one more point when the predicted intent is the expected one. */
  function ScoreIntent(report: Report, utteranceIntent: string, intent: string): Report
    requires IntentKey in report
  {
    if utteranceIntent == intent then Update(report, IntentKey, 1.0, None) else report
  }

  /** Taking element 0 of the instance list for `name`, when there is one, does not fail. */
  predicate Indexable(p: Prediction, name: string)
  {
    p.instances.Some? && name in p.instances.value ==> |p.instances.value[name]| > 0
  }

  predicate AllIndexable(p: Prediction, labels: seq<EntityLabel>)
  {
    forall i :: 0 <= i < |labels| ==> Indexable(p, labels[i].entityName)
  }

  /**
   * The first instance predicted for `name` has type `name`; a missing
   * table, entry or type reads as no match, as the scorer catches the lookup failure.
   */
  predicate TypeMatches(p: Prediction, name: string)
    requires Indexable(p, name)
  {
    && p.instances.Some?
    && name in p.instances.value
    && p.instances.value[name][0].entityType == Some(name)
  }

  /**
   * The label loop of the entity check: the report after it and the number
   * of hits. A matching label whose name is not a key of the report makes
   * the update fail before the hit is counted, and the failure is caught.
   */
  function ScoreLabels(report: Report, labels: seq<EntityLabel>, p: Prediction): (r: (Report, nat))
    requires AllIndexable(p, labels)
    ensures r.0.Keys == report.Keys
    ensures r.1 <= |labels|
  {
    if labels == [] then (report, 0)
    else
      var prefix := labels[..|labels| - 1];
      var name := labels[|labels| - 1].entityName;
      var (scored, hits) := ScoreLabels(report, prefix, p);
      if TypeMatches(p, name) && name in scored then (Update(scored, name, 1.0, Mean), hits + 1)
      else (scored, hits)
  }

  /** One more label in the loop: the step of ScoreLabels on a prefix. */
  lemma LabelStep(report: Report, labels: seq<EntityLabel>, i: nat, p: Prediction)
    requires AllIndexable(p, labels)
    requires i < |labels|
    ensures var (scored, hits) := ScoreLabels(report, labels[..i], p);
            var name := labels[i].entityName;
            ScoreLabels(report, labels[..i + 1], p)
            == if TypeMatches(p, name) && name in scored then (Update(scored, name, 1.0, Mean), hits + 1) else (scored, hits)
  {
    assert labels[..i + 1][..i] == labels[..i];
  }

  /** The share of hits among the labels; no labels count as one. */
  function HitRate(hits: nat, labels: nat): (r: real)
    requires hits <= labels
    ensures 0.0 <= r <= 1.0
    ensures r == 0.0 <==> hits == 0
    ensures r == 1.0 <==> 0 < hits == labels
  {
    var divisor := (if labels == 0 then 1 else labels) as real;
    var rate := hits as real / divisor;
    assert rate * divisor == hits as real;
    rate
  }

  /** The entity check: the label loop, then the hit rate averaged into the overall accuracy. */
  function ScoreEntities(report: Report, labels: seq<EntityLabel>, p: Prediction): Report
    requires AccuracyKey in report
    requires AllIndexable(p, labels)
  {
    var (scored, hits) := ScoreLabels(report, labels, p);
    Update(scored, AccuracyKey, HitRate(hits, |labels|), Mean)
  }

  function ScoreUtterance(report: Report, u: Utterance, p: Prediction): Report
    requires IntentKey in report && AccuracyKey in report
    requires AllIndexable(p, u.entityLabels)
  {
    ScoreEntities(ScoreIntent(report, u.intentName, p.topIntent), u.entityLabels, p)
  }

  /** Every answer of the service for these utterances can be indexed as the scorer does. */
  predicate Answerable(oracle: string -> Prediction, us: seq<Utterance>)
  {
    forall i :: 0 <= i < |us| ==> AllIndexable(oracle(us[i].text), us[i].entityLabels)
  }

  /** The report after scoring the utterances in order. */
  function ScoreAll(report: Report, us: seq<Utterance>, oracle: string -> Prediction): (r: Report)
    requires IntentKey in report && AccuracyKey in report
    requires Answerable(oracle, us)
    ensures r.Keys == report.Keys
  {
    if us == [] then report
    else
      var last := us[|us| - 1];
      ScoreUtterance(ScoreAll(report, us[..|us| - 1], oracle), last, oracle(last.text))
  }

  /** A prefix of answerable utterances is answerable. */
  lemma AnswerablePrefix(oracle: string -> Prediction, us: seq<Utterance>, k: nat, m: nat)
    requires k <= m <= |us|
    requires Answerable(oracle, us[..m])
    ensures Answerable(oracle, us[..k])
  {
    forall j | 0 <= j < k
      ensures AllIndexable(oracle(us[..k][j].text), us[..k][j].entityLabels)
    {
      assert us[..k][j] == us[..m][j];
    }
  }

  /** One more utterance in the scoring loop: the step of ScoreAll on a prefix. */
  lemma ScoreStep(report: Report, us: seq<Utterance>, i: nat, m: nat, oracle: string -> Prediction)
    requires IntentKey in report && AccuracyKey in report
    requires i < m <= |us|
    requires Answerable(oracle, us[..m])
    ensures Answerable(oracle, us[..i]) && Answerable(oracle, us[..i + 1])
    ensures AllIndexable(oracle(us[i].text), us[i].entityLabels)
    ensures ScoreAll(report, us[..i + 1], oracle)
            == ScoreUtterance(ScoreAll(report, us[..i], oracle), us[i], oracle(us[i].text))
  {
    AnswerablePrefix(oracle, us, i, m);
    AnswerablePrefix(oracle, us, i + 1, m);
    assert us[..m][i] == us[i];
    assert us[..i + 1][..i] == us[..i];
  }

  // ---------------------------------------------------------------------------
  // What the scores mean
  // ---------------------------------------------------------------------------

  /** The intent score counts points; every other score is a mean of values in [0, 1]. */
  predicate InRange(report: Report)
  {
    && IntentKey in report
    && 0.0 <= report[IntentKey]
    && forall k :: k in report && k != IntentKey ==> 0.0 <= report[k] <= 1.0
  }

  lemma {:induction false} LabelsInRange(report: Report, labels: seq<EntityLabel>, p: Prediction)
    requires AllIndexable(p, labels)
    requires InRange(report)
    ensures InRange(ScoreLabels(report, labels, p).0)
  {
    if labels != [] {
      LabelsInRange(report, labels[..|labels| - 1], p);
    }
  }

  /** A report of the scorer: exactly the seven keys, every score in its range. */
  predicate WellFormed(report: Report)
  {
    report.Keys == ReportKeys && InRange(report)
  }

  /** The entity check keeps a report well formed. */
  lemma EntitiesWellFormed(report: Report, labels: seq<EntityLabel>, p: Prediction)
    requires AllIndexable(p, labels)
    requires WellFormed(report)
    ensures WellFormed(ScoreEntities(report, labels, p))
  {
    LabelsInRange(report, labels, p);
  }

  /** Scoring one utterance keeps every score in its range. */
  lemma UtteranceInRange(report: Report, u: Utterance, p: Prediction)
    requires IntentKey in report && AccuracyKey in report
    requires AllIndexable(p, u.entityLabels)
    requires InRange(report)
    ensures InRange(ScoreUtterance(report, u, p))
  {
    LabelsInRange(ScoreIntent(report, u.intentName, p.topIntent), u.entityLabels, p);
  }

  /** `m` successive means with 1, starting from `x`. */
  function MeanWithOnes(x: real, m: nat): real
  {
    if m == 0 then x else Updated(MeanWithOnes(x, m - 1), 1.0, Mean)
  }

  function Pow2(m: nat): (r: real)
    ensures r >= 1.0
  {
    if m == 0 then 1.0 else 2.0 * Pow2(m - 1)
  }

  /** Each mean with 1 halves the distance to 1: after `m` hits a score of 0 is 1 - 1/2^m. */
  lemma {:induction false} MeanWithOnesClosedForm(x: real, m: nat)
    ensures MeanWithOnes(x, m) == 1.0 - (1.0 - x) / Pow2(m)
  {
    if m > 0 {
      MeanWithOnesClosedForm(x, m - 1);
      var d := (1.0 - x) / Pow2(m - 1);
      assert (1.0 - x) / Pow2(m) == d / 2.0;
    }
  }

  /** Means with 1 compose: `a` of them, then `b` more, are `a + b` of them. */
  lemma {:induction false} MeanWithOnesAdd(x: real, a: nat, b: nat)
    ensures MeanWithOnes(MeanWithOnes(x, a), b) == MeanWithOnes(x, a + b)
  {
    if b > 0 {
      MeanWithOnesAdd(x, a, b - 1);
    }
  }

  /** The labels named `name` whose first predicted instance has that type. */
  function MatchCount(labels: seq<EntityLabel>, p: Prediction, name: string): (r: nat)
    requires AllIndexable(p, labels)
    ensures r <= |labels|
  {
    if labels == [] then 0
    else
      var last := labels[|labels| - 1].entityName;
      MatchCount(labels[..|labels| - 1], p, name) + (if last == name && TypeMatches(p, name) then 1 else 0)
  }

  /** The score of an entity kind after the label loop: one mean with 1 per matching label of that kind. */
  lemma {:induction false} EntityScoreCountsMatches(report: Report, labels: seq<EntityLabel>, p: Prediction, name: string)
    requires AllIndexable(p, labels)
    requires name in report
    ensures ScoreLabels(report, labels, p).0[name] == MeanWithOnes(report[name], MatchCount(labels, p, name))
  {
    if labels != [] {
      EntityScoreCountsMatches(report, labels[..|labels| - 1], p, name);
    }
  }

  /** The hits of the label loop are the matching labels whose name is a key of the report. */
  lemma {:induction false} HitsAreMatches(report: Report, labels: seq<EntityLabel>, p: Prediction)
    requires AllIndexable(p, labels)
    requires forall i :: 0 <= i < |labels| ==> labels[i].entityName in report
    ensures ScoreLabels(report, labels, p).1 == |set i | 0 <= i < |labels| && TypeMatches(p, labels[i].entityName)|
  {
    if labels != [] {
      var n := |labels| - 1;
      HitsAreMatches(report, labels[..n], p);
      var before := set i | 0 <= i < n && TypeMatches(p, labels[..n][i].entityName);
      var all := set i | 0 <= i < |labels| && TypeMatches(p, labels[i].entityName);
      assert before == set i | 0 <= i < n && TypeMatches(p, labels[i].entityName);
      if TypeMatches(p, labels[n].entityName) {
        assert all == before + {n};
      } else {
        assert all == before;
      }
    }
  }

  /** The matching labels of kind `name` over all scored utterances. */
  function TotalMatches(us: seq<Utterance>, oracle: string -> Prediction, name: string): nat
    requires Answerable(oracle, us)
  {
    if us == [] then 0
    else
      var last := us[|us| - 1];
      AnswerablePrefix(oracle, us, |us| - 1, |us|);
      assert us[..|us|] == us;
      TotalMatches(us[..|us| - 1], oracle, name) + MatchCount(last.entityLabels, oracle(last.text), name)
  }

  /** ScoreAll and TotalMatches on a non-empty list, unfolded once. */
  lemma RunLast(report: Report, us: seq<Utterance>, oracle: string -> Prediction, name: string)
    requires IntentKey in report && AccuracyKey in report
    requires Answerable(oracle, us) && us != []
    ensures Answerable(oracle, us[..|us| - 1])
    ensures AllIndexable(oracle(us[|us| - 1].text), us[|us| - 1].entityLabels)
    ensures ScoreAll(report, us, oracle)
            == ScoreUtterance(ScoreAll(report, us[..|us| - 1], oracle), us[|us| - 1], oracle(us[|us| - 1].text))
    ensures TotalMatches(us, oracle, name)
            == TotalMatches(us[..|us| - 1], oracle, name) + MatchCount(us[|us| - 1].entityLabels, oracle(us[|us| - 1].text), name)
  {
    AnswerablePrefix(oracle, us, |us| - 1, |us|);
    assert us[..|us|] == us;
  }

  /** Scoring one utterance averages an entity kind's score with 1 once per matching label of that kind. */
  lemma EntityScoreStep(report: Report, u: Utterance, p: Prediction, name: string)
    requires IntentKey in report && AccuracyKey in report && name in report
    requires name != IntentKey && name != AccuracyKey
    requires AllIndexable(p, u.entityLabels)
    ensures ScoreUtterance(report, u, p)[name] == MeanWithOnes(report[name], MatchCount(u.entityLabels, p, name))
  {
    EntityScoreCountsMatches(ScoreIntent(report, u.intentName, p.topIntent), u.entityLabels, p, name);
  }

  /**
   * Over a whole run, an entity kind's score is its starting score averaged
   * with 1 once per matching label of that kind.
   */
  lemma {:induction false} EntityScoreOverRun(report: Report, us: seq<Utterance>, oracle: string -> Prediction, name: string)
    requires IntentKey in report && AccuracyKey in report && name in report
    requires name != IntentKey && name != AccuracyKey
    requires Answerable(oracle, us)
    ensures ScoreAll(report, us, oracle)[name] == MeanWithOnes(report[name], TotalMatches(us, oracle, name))
  {
    if us != [] {
      var n := |us| - 1;
      var last := us[n];
      RunLast(report, us, oracle, name);
      EntityScoreOverRun(report, us[..n], oracle, name);
      var p := oracle(last.text);
      EntityScoreStep(ScoreAll(report, us[..n], oracle), last, p, name);
      MeanWithOnesAdd(report[name], TotalMatches(us[..n], oracle, name), MatchCount(last.entityLabels, p, name));
    }
  }

  /** The entity labels name entity kinds only, never the intent or the overall accuracy. */
  predicate Recognized(u: Utterance)
  {
    forall i :: 0 <= i < |u.entityLabels| ==> u.entityLabels[i].entityName in Labels
  }

  /** The label loop leaves alone a score no label names. */
  lemma {:induction false} UnnamedUnchanged(report: Report, labels: seq<EntityLabel>, p: Prediction, key: string)
    requires AllIndexable(p, labels)
    requires key in report
    requires forall i :: 0 <= i < |labels| ==> labels[i].entityName != key
    ensures ScoreLabels(report, labels, p).0[key] == report[key]
  {
    if labels != [] {
      UnnamedUnchanged(report, labels[..|labels| - 1], p, key);
    }
  }

  /** The utterances whose predicted intent is the expected one. */
  function IntentHits(us: seq<Utterance>, oracle: string -> Prediction): (r: nat)
    ensures r <= |us|
  {
    if us == [] then 0
    else
      var last := us[|us| - 1];
      IntentHits(us[..|us| - 1], oracle) + (if last.intentName == oracle(last.text).topIntent then 1 else 0)
  }

  /** With recognised labels, the intent score grows by exactly the number of correctly predicted intents. */
  lemma {:induction false} IntentScoreCountsHits(report: Report, us: seq<Utterance>, oracle: string -> Prediction)
    requires IntentKey in report && AccuracyKey in report
    requires Answerable(oracle, us)
    requires forall i :: 0 <= i < |us| ==> Recognized(us[i])
    ensures ScoreAll(report, us, oracle)[IntentKey] == report[IntentKey] + IntentHits(us, oracle) as real
  {
    if us != [] {
      var n := |us| - 1;
      var last := us[n];
      IntentScoreCountsHits(report, us[..n], oracle);
      var before := ScoreAll(report, us[..n], oracle);
      var p := oracle(last.text);
      var scored := ScoreIntent(before, last.intentName, p.topIntent);
      assert Recognized(last);
      UnnamedUnchanged(scored, last.entityLabels, p, IntentKey);
    }
  }

  /** The utterances the converter produces have recognised labels, so they can be scored. */
  lemma ConvertedRecognized(conversation: Conversation)
    requires ConvertConversation(conversation).Ok?
    ensures Recognized(ConvertConversation(conversation).value)
  {
    LabelsWellFormed(conversation[0].acts, conversation[0].text);
  }

  /**
   * How many utterances the scorer processes: all of them for "all", the
   * first `n` for a count `n` within the list, all of them for a larger
   * count, and exactly one of a non-empty list for a count of 0 or less
   * (the count is checked only after an utterance is scored).
   */
  function Processed(count: Count, total: nat): (r: nat)
    ensures r <= total
    ensures count.All? ==> r == total
    ensures total == 0 ==> r == 0
    ensures count.Limit? && 1 <= count.n <= total ==> r == count.n
    ensures count.Limit? && count.n >= total ==> r == total
    ensures count.Limit? && count.n <= 0 && total > 0 ==> r == 1
  {
    match count
    case All => total
    case Limit(n) => if total == 0 then 0 else Min(Max(n, 1), total)
  }

  /** The counter the scorer starts from: the list's length for "all". */
  function Budget(count: Count, total: nat): int
  {
    if count.All? then total else count.n
  }

  /** While the counter has not run out, the next utterance is one the scorer processes; at the end of the list it has processed them all. */
  lemma ProcessedContinue(count: Count, total: nat, i: nat)
    requires i <= total
    requires i > 0 ==> Budget(count, total) - i >= 1
    ensures i < total ==> i < Processed(count, total)
    ensures i == total ==> i == Processed(count, total)
  {
  }

  /** The counter runs out after utterance `i`: the scorer has processed exactly `i`. */
  lemma ProcessedStop(count: Count, total: nat, i: nat)
    requires 1 <= i <= total
    requires i > 1 ==> Budget(count, total) - (i - 1) >= 1
    requires Budget(count, total) - i <= 0
    ensures i == Processed(count, total)
  {
  }

  // ---------------------------------------------------------------------------
  // The scorer object
  // ---------------------------------------------------------------------------

  class Predict {
    var accuracy: Report

    ghost predicate Valid()
      reads this
    {
      WellFormed(accuracy)
    }

    /** A fresh report: every score starts at 0. */
    constructor ()
      ensures Valid()
      ensures forall k :: k in accuracy ==> accuracy[k] == 0.0
    {
      accuracy := map[
        IntentKey := 0.0,
        "dst_city" := 0.0,
        "or_city" := 0.0,
        "str_date" := 0.0,
        "end_date" := 0.0,
        "budget" := 0.0,
        AccuracyKey := 0.0];
    }

    /** Sum `value` into the score of `key`, or average it in for a mean; `found` is false when the key is missing and nothing changes. */
    method UpdateAccuracy(key: string, value: real, action: Option<string>) returns (found: bool)
      modifies this
      ensures found <==> key in old(accuracy)
      ensures found ==> accuracy == old(accuracy)[key := Updated(old(accuracy)[key], value, action)]
      ensures !found ==> accuracy == old(accuracy)
    {
      if key !in accuracy {
        return false;
      }
      var v := value + accuracy[key];
      if action == Mean {
        v := v / 2.0;
      }
      accuracy := accuracy[key := v];
      return true;
    }

    method CheckIntent(utteranceIntent: string, intent: string)
      requires Valid()
      modifies this
      ensures Valid()
      ensures accuracy == ScoreIntent(old(accuracy), utteranceIntent, intent)
    {
      if utteranceIntent == intent {
        var _ := UpdateAccuracy(IntentKey, 1.0, None);
      }
    }

    method CheckEntities(utterance: seq<EntityLabel>, prediction: Prediction)
      requires Valid()
      requires AllIndexable(prediction, utterance)
      modifies this
      ensures Valid()
      ensures accuracy == ScoreEntities(old(accuracy), utterance, prediction)
    {
      var entityCount := |utterance|;
      var hits := 0;
      var i := 0;
      while i < |utterance|
        invariant 0 <= i <= |utterance|
        invariant (accuracy, hits) == ScoreLabels(old(accuracy), utterance[..i], prediction)
      {
        var entityName := utterance[i].entityName;
        LabelStep(old(accuracy), utterance, i, prediction);
        if TypeMatches(prediction, entityName) {
          var found := UpdateAccuracy(entityName, 1.0, Mean);
          if found {
            hits := hits + 1;
          }
        }
        i := i + 1;
      }
      assert utterance[..i] == utterance;
      if entityCount == 0 {
        entityCount := 1;
      }
      var _ := UpdateAccuracy(AccuracyKey, hits as real / entityCount as real, Mean);
      EntitiesWellFormed(old(accuracy), utterance, prediction);
    }

    /** The body of the scoring loop: the intent check, then the entity check, on one answer. */
    method ScoreOne(utterance: Utterance, response: Prediction)
      requires Valid()
      requires AllIndexable(response, utterance.entityLabels)
      modifies this
      ensures Valid()
      ensures accuracy == ScoreUtterance(old(accuracy), utterance, response)
    {
      CheckIntent(utterance.intentName, response.topIntent);
      CheckEntities(utterance.entityLabels, response);
    }

    /** Score the utterances in order, stopping after `count` of them, and return the report. */
    method Predict(utterances: seq<Utterance>, count: Count, oracle: string -> Prediction) returns (report: Report)
      requires Valid()
      requires Answerable(oracle, utterances[..Processed(count, |utterances|)])
      modifies this
      ensures Valid()
      ensures report == accuracy
      ensures accuracy == ScoreAll(old(accuracy), utterances[..Processed(count, |utterances|)], oracle)
    {
      var remaining := if count.All? then |utterances| else count.n;
      ghost var processed := Processed(count, |utterances|);
      var i := 0;
      while i < |utterances|
        invariant 0 <= i <= processed
        invariant Valid()
        invariant remaining == Budget(count, |utterances|) - i
        invariant i > 0 ==> remaining >= 1
        invariant Answerable(oracle, utterances[..i])
        invariant accuracy == ScoreAll(old(accuracy), utterances[..i], oracle)
      {
        ProcessedContinue(count, |utterances|, i);
        ghost var previous := i;
        ScoreStep(old(accuracy), utterances, i, processed, oracle);
        ScoreOne(utterances[i], oracle(utterances[i].text));
        remaining := remaining - 1;
        i := i + 1;
        if remaining <= 0 {
          assert previous > 0 ==> Budget(count, |utterances|) - previous >= 1;
          ProcessedStop(count, |utterances|, i);
          break;
        }
      }
      if i == 0 || remaining >= 1 {
        ProcessedContinue(count, |utterances|, i);
      }
      return accuracy;
    }
  }
}
