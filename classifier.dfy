/**
 * The external image classifier as the prediction handler sees it: the
 * outcome of one HTTP call, and the per-prediction transform applied to a
 * successful reply.
 */
module Classifier {
  import opened Options
  import opened JsValues
  import opened Fixed

  /** One entry of the reply's `predictions` list: a tag and a probability in [0, 1]. */
  datatype RawPrediction = RawPrediction(tagName: string, probability: real)

  /**
   * What the call yields. `Answered` is a 2xx reply; its `predictions` is
   * `None` when the body carries no usable `predictions` list. `Refused` is a
   * rejected call: `response` is the body of the error reply the service
   * sent, or `None` when no reply arrived at all (a network failure).
   */
  datatype Reply =
    | Answered(predictions: Option<seq<RawPrediction>>)
    | Refused(response: Option<Value>)

  /** A prediction as returned to the client: the probability is a percentage string. */
  datatype Prediction = Prediction(tagName: string, probability: string)

  /**
   * The `.map` over the reply's predictions: one prediction per entry, in
   * the same order, the tag copied unchanged and the probability printed as
   * `(p * 100).toFixed(2)`.
   */
  function Organize(raw: seq<RawPrediction>): (ps: seq<Prediction>)
    ensures |ps| == |raw|
    ensures forall i :: 0 <= i < |raw| ==> ps[i].tagName == raw[i].tagName
  {
    seq(|raw|, i requires 0 <= i < |raw| => Prediction(raw[i].tagName, ToFixed2(raw[i].probability * 100.0)))
  }

  /** A percentage between 0.00 and 100.00 written with exactly two fractional digits. */
  predicate IsPercent(s: string) {
    |s| >= 4 && s[0] != '-' && exists h :: ParseFixed2(s) == Some(h) && 0 <= h <= 10000
  }

  /**
   * When every probability the classifier returns lies in [0, 1], every
   * returned percentage reads back as a value from 0.00 to 100.00.
   */
  lemma OrganizedPercentages(raw: seq<RawPrediction>)
    requires forall i :: 0 <= i < |raw| ==> 0.0 <= raw[i].probability <= 1.0
    ensures forall i :: 0 <= i < |raw| ==> IsPercent(Organize(raw)[i].probability)
  {
    forall i | 0 <= i < |raw|
      ensures IsPercent(Organize(raw)[i].probability)
    {
      PercentInRange(raw[i].probability);
    }
  }
}
