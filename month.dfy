/** `toMonthKey` (src/shared/lib/month.ts): normalises a month-picker value. */
module Month {
  import Dates

  /** Keeps the first seven characters; shorter strings are returned whole. */
  function ToMonthKey(value: string): (r: string)
    ensures r <= value
    ensures |value| <= 7 ==> r == value
    ensures |value| > 7 ==> |r| == 7
  {
    if |value| <= 7 then value else value[..7]
  }

  /** In particular a month key is left as it is. */
  lemma ToMonthKeyOfMonthKey(m: string)
    requires Dates.IsMonthKey(m)
    ensures ToMonthKey(m) == m
  {
  }

  lemma ToMonthKeyIdempotent(value: string)
    ensures ToMonthKey(ToMonthKey(value)) == ToMonthKey(value)
  {
  }

  /** The two slicing helpers of the source agree everywhere. */
  lemma ToMonthKeyIsGetMonthKey(value: string)
    ensures ToMonthKey(value) == Dates.GetMonthKey(value)
  {
  }
}
