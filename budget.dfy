/** The budget validator of shared/schema.ts: the body field `budget` must be a string
    matching the regular expression ^\d+(\.\d{1,2})?$ -- a non-empty run of digits,
    optionally followed by a dot and one or two digits, and nothing else. In a JavaScript
    regular expression \d is exactly '0'..'9', and $ without the m flag matches only at the
    end of the input. */
module BudgetSchema {
  import opened Common

  predicate IsDigit(c: char)
  {
    '0' <= c <= '9'
  }

  predicate AllDigits(s: string)
  {
    forall i :: 0 <= i < |s| ==> IsDigit(s[i])
  }

  /** The language of the regular expression, stated directly: digits only, or digits, one
      dot, and one or two digits. */
  ghost predicate MatchesBudgetPattern(s: string)
  {
    || (|s| >= 1 && AllDigits(s))
    || (exists k | 0 < k < |s| :: s[k] == '.' && AllDigits(s[..k]) && AllDigits(s[k + 1..]) && 1 <= |s| - (k + 1) <= 2)
  }

  /** Scanning a run of digits from position i: the position of the first non-digit at or
      after i (or the end of the string). */
  function DigitsEnd(s: string, i: nat): (j: nat)
    requires i <= |s|
    ensures i <= j <= |s|
    ensures forall m :: i <= m < j ==> IsDigit(s[m])
    ensures j == |s| || !IsDigit(s[j])
    decreases |s| - i
  {
    if i == |s| || !IsDigit(s[i]) then i else DigitsEnd(s, i + 1)
  }

  /** The hand-written recogniser: integer digits, then either the end, or a dot followed by
      a digit run of length 1 or 2 that reaches the end. It decides exactly the language of
      the regular expression. */
  predicate IsValidBudget(s: string): (b: bool)
    ensures b <==> MatchesBudgetPattern(s)
  {
    var j := DigitsEnd(s, 0);
    && j > 0
    && (j == |s| || (s[j] == '.' && var t := DigitsEnd(s, j + 1); t == |s| && 1 <= t - (j + 1) <= 2))
  }

  /** Parsing the request body `{ budget: ... }`: a missing or non-string field and a string
      outside the pattern both fail validation. */
  function ParseBudget(body: Option<string>): (r: Option<string>)
    ensures r.Some? <==> body.Some? && MatchesBudgetPattern(body.value)
    ensures r.Some? ==> r == body
  {
    if body.Some? && IsValidBudget(body.value) then body
    else None
  }

  /** An accepted budget starts and ends with a digit (so no sign, no leading or trailing dot),
      and every other character is a digit or the one dot. */
  lemma AcceptedBudgetShape(s: string)
    requires IsValidBudget(s)
    ensures |s| > 0 && IsDigit(s[0]) && IsDigit(s[|s| - 1])
    ensures forall i :: 0 <= i < |s| ==> IsDigit(s[i]) || s[i] == '.'
    ensures forall i, j :: 0 <= i < j < |s| && s[i] == '.' ==> s[j] != '.'
  {
  }

  lemma AcceptedExamples()
    ensures IsValidBudget("100") && IsValidBudget("0")
    ensures IsValidBudget("42.5") && IsValidBudget("42.50")
  {
  }

  lemma RejectedExamples()
    ensures !IsValidBudget("-5.00")
    ensures !IsValidBudget("1.234")
    ensures !IsValidBudget("1.")
    ensures !IsValidBudget(".5")
    ensures !IsValidBudget("")
  {
  }
}
