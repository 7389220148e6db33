/** The plan card's feature list (src/components/pricing-card.tsx). */
module Pricing {
  /** The features every plan lists first, in this order. */
  const BaseFeatures: seq<string> := ["Goal tracking", "Progress visualization", "Daily consistency tracking"]

  /**
   * Builds `features` as the card does: the three base features, then two more
   * for every plan not named "Free", then priority support for "Pro".
   */
  method Features(planName: string) returns (features: seq<string>)
    ensures |features| >= 3 && features[..3] == BaseFeatures
    ensures planName == "Free" ==> features == BaseFeatures
    ensures planName != "Free" ==> |features| >= 5 && features[3..5] == ["Unlimited goals", "Advanced analytics"]
    ensures planName == "Pro" ==> |features| == 6 && features[5] == "Priority support"
    ensures planName != "Free" && planName != "Pro" ==> |features| == 5
  {
    features := BaseFeatures;
    if planName != "Free" {
      features := features + ["Unlimited goals", "Advanced analytics"];
    }
    if planName == "Pro" {
      features := features + ["Priority support"];
    }
  }
}
