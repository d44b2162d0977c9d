/** The token estimator: a cheap stand-in for real tokenization, used only to bound history size. */
module Tokens {

  /** Estimated token cost of `text`: a quarter of its length rounded down, but never below one.
      The contract pins the result down without the division: it is at least one, it is one
      or at most a quarter of the length, and the length is below four times one more than it. */
  function ApproxTokenCount(text: string): (r: nat)
    ensures r >= 1
    ensures r == 1 || 4 * r <= |text|
    ensures |text| < 4 * r + 4
  {
    var quarter := |text| / 4;
    if quarter < 1 then 1 else quarter
  }

  /** The estimate is non-decreasing in the length of the text. */
  lemma ApproxTokenCountMonotonic(a: string, b: string)
    requires |a| <= |b|
    ensures ApproxTokenCount(a) <= ApproxTokenCount(b)
  {
  }

  /** The estimate depends on nothing but the length of the text. */
  lemma ApproxTokenCountByLength(a: string, b: string)
    requires |a| == |b|
    ensures ApproxTokenCount(a) == ApproxTokenCount(b)
  {
  }

  /** The empty text costs one token: the starting total of a history without a system turn. */
  lemma EmptyTextCostsOne()
    ensures ApproxTokenCount("") == 1
  {
  }
}
