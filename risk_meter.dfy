/** The clarity meter (components/RiskMeter.tsx): bar width and colour bucket of a clarity score. */
module RiskMeter {

  /** The five colour buckets, from clearest to most ambiguous. */
  datatype Bucket = Green | Blue | Rose | Orange | Red

  /** Position of a bucket on the scale. */
  function Rank(b: Bucket): nat {
    match b
    case Green => 0
    case Blue => 1
    case Rose => 2
    case Orange => 3
    case Red => 4
  }

  /** The CSS class the meter uses for each bucket. */
  function CssClass(b: Bucket): string {
    match b
    case Green => "bg-green-500"
    case Blue => "bg-blue-400"
    case Rose => "bg-[#B5838D]"
    case Orange => "bg-orange-500"
    case Red => "bg-red-500"
  }

  /** `(score / 5) * 100`: the bar width in percent; 1 gives 20 and 5 gives 100. */
  function Percentage(score: int): (p: real)
    ensures p == 20.0 * score as real
    ensures 1 <= score <= 5 ==> 20.0 <= p <= 100.0
  {
    (score as real / 5.0) * 100.0
  }

  /** `getGradient`'s if-chain: the first threshold the score does not exceed picks the bucket. */
  function BucketOf(score: int): (b: Bucket)
    ensures score <= 1 <==> b == Green
    ensures b == Red <==> score > 4
    ensures 1 < score <= 5 ==> Rank(b) == score - 1
  {
    if score <= 1 then Green
    else if score <= 2 then Blue
    else if score <= 3 then Rose
    else if score <= 4 then Orange
    else Red
  }

  function GradientClass(score: int): string {
    CssClass(BucketOf(score))
  }

  /** A higher score never falls in an earlier bucket. */
  lemma BucketMonotone(a: int, b: int)
    requires a <= b
    ensures Rank(BucketOf(a)) <= Rank(BucketOf(b))
  {
  }

  /** Distinct buckets have distinct CSS classes, so the class determines the bucket. */
  lemma CssClassInjective(x: Bucket, y: Bucket)
    requires CssClass(x) == CssClass(y)
    ensures x == y
  {
  }

  /** The integer scores 1 to 5 get five different classes. */
  lemma IntegerScoresDistinct(a: int, b: int)
    requires 1 <= a <= 5 && 1 <= b <= 5 && a != b
    ensures GradientClass(a) != GradientClass(b)
  {
    if GradientClass(a) == GradientClass(b) {
      CssClassInjective(BucketOf(a), BucketOf(b));
    }
  }
}
