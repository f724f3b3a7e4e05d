/** From a minimum distance between events to how many of them a window can hold. */
module Spacing {

  lemma CountFromSpan(n: nat, gap: nat, span: int)
    requires gap > 0 && n > 0 && (n - 1) * gap <= span
    ensures n <= span / gap + 1
  {
    QuotientBounds(span, gap);
    MulOrder(span / gap + 1, n - 1, gap);
  }

  lemma QuotientBounds(span: int, gap: nat)
    requires gap > 0
    ensures span < (span / gap + 1) * gap
  {
  }

  lemma MulOrder(a: int, b: int, c: nat)
    ensures a <= b ==> a * c <= b * c
  {
  }
}
