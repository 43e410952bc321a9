/** Month keys from ISO dates (src/shared/lib/dates.ts). The two clock reads of
    that file are not modelled; their values enter the store as parameters. */
module Dates {

  predicate IsDigit(c: char) { '0' <= c <= '9' }

  /** "YYYY-MM-DD". */
  predicate IsISODate(s: string) {
    |s| == 10 && s[4] == '-' && s[7] == '-'
    && forall k :: 0 <= k < 10 && k != 4 && k != 7 ==> IsDigit(s[k])
  }

  /** "YYYY-MM". */
  predicate IsMonthKey(s: string) {
    |s| == 7 && s[4] == '-'
    && forall k :: 0 <= k < 7 && k != 4 ==> IsDigit(s[k])
  }

  /** `s.slice(0, n)` for a non-negative `n`: the first min(n, |s|) characters. */
  function Slice(s: string, n: nat): (r: string)
    ensures |r| == if n < |s| then n else |s|
    ensures r <= s
  {
    if n < |s| then s[..n] else s
  }

  /** `getMonthKey`: the first seven characters of the date. */
  function GetMonthKey(dateISO: string): (r: string)
    ensures r <= dateISO
    ensures |r| == if |dateISO| < 7 then |dateISO| else 7
  {
    Slice(dateISO, 7)
  }

  /** A well-formed date yields a well-formed month key: its year and month. */
  lemma GetMonthKeyOfDate(d: string)
    requires IsISODate(d)
    ensures IsMonthKey(GetMonthKey(d)) && GetMonthKey(d) == d[..7]
  {
  }

  lemma GetMonthKeyIdempotent(s: string)
    ensures GetMonthKey(GetMonthKey(s)) == GetMonthKey(s)
  {
  }
}
