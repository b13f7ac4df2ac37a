/** The daily reveal ceiling and the remaining-views arithmetic of the usage counter widget
    (components/UsageCounter.tsx). */
module Quota {

  /** The number of new contacts one user may reveal per calendar day. */
  const DailyLimit: nat := 50

  /** The count the widget displays: the count it is given, clamped at zero. */
  function DisplayCount(initialCount: int): (count: nat)
    ensures count >= initialCount
    ensures count == initialCount || count == 0
    ensures initialCount >= 0 ==> count == initialCount
  {
    if initialCount < 0 then 0 else initialCount
  }

  /** The views left today out of the daily limit, clamped at zero. It is applied to a
      count already clamped by `DisplayCount`, hence the `nat` parameter. */
  function RemainingViews(count: nat): (remaining: nat)
    ensures remaining <= DailyLimit
    ensures count <= DailyLimit ==> count + remaining == DailyLimit
    ensures count >= DailyLimit ==> remaining == 0
  {
    if DailyLimit < count then 0 else DailyLimit - count
  }
}
