/**
 * Small readers of CSV cells and the one escaping rule the loader applies before
 * splicing a name into a query: `parse_bool`, `parse_quantity`, `sanitize_value`,
 * and the `ACTIVE` status test of a quantity change.
 */
module Fields {
  import opened Wrappers
  import opened Text

  // ----- parse_bool -----

  /** The texts that read as true once stripped and lower-cased. */
  const TrueWords: set<string> := {"true", "1", "yes", "y", "t"}

  /** `parse_bool`: a missing cell is false; otherwise the stripped, lower-cased text must be a true word. */
  function ParseBool(value: Option<string>): (r: bool)
    ensures value.None? ==> !r
  {
    value.Some? && Lower(Strip(value.value)) in TrueWords
  }

  /**
   * A true word in any letter case, with any whitespace around it, reads as true:
   * `" Yes "`, `"TRUE"` and `"t"` all do.
   */
  lemma ParseBoolAccepts(pre: string, word: string, post: string)
    requires AllSpace(pre) && AllSpace(post) && Lower(word) in TrueWords
    ensures ParseBool(Some(pre + word + post))
  {
    var low := Lower(word);
    assert low[0] == LowerChar(word[0]) && low[|low| - 1] == LowerChar(word[|word| - 1]);
    StripPadded(pre, word, post);
  }

  // ----- parse_quantity -----

  /** `parse_quantity`: an empty or missing cell, a non-integer and a non-positive integer all give 1. */
  function ParseQuantity(value: Option<string>): (q: int)
    ensures q >= 1
    ensures value.None? || value.value == "" || ParseInt(value.value).None? ==> q == 1
  {
    if value.None? || value.value == "" then 1
    else
      match ParseInt(value.value)
      case None => 1
      case Some(n) => if n > 0 then n else 1
  }

  /** A positive quantity written in decimal, with any whitespace around it, reads back as itself. */
  lemma ParseQuantityReadsBack(pre: string, n: nat, post: string)
    requires AllSpace(pre) && AllSpace(post) && n > 0
    ensures ParseQuantity(Some(pre + NatDigits(n) + post)) == n
  {
    var digits := NatDigits(n);
    assert IsDigit(digits[0]) && IsDigit(digits[|digits| - 1]);
    StripPadded(pre, digits, post);
    ParseDigits(n, digits);
  }

  /** Zero and negative quantities fall back to 1. */
  lemma ParseQuantityNonPositive(m: nat)
    ensures ParseQuantity(Some("-" + NatDigits(m))) == 1
    ensures ParseQuantity(Some("0")) == 1
  {
    var s := "-" + NatDigits(m);
    assert IsDigit(s[|s| - 1]);
    StripNoSpace(s);
    ParseNegative(m, s);
    StripNoSpace("0");
    ParseDigits(0, "0");
  }

  // ----- sanitize_value -----

  /** `sanitize_value`: every single quote is doubled, as an SQL string literal needs. */
  function Sanitize(s: string): (r: string)
    ensures |r| >= |s|
    ensures '\'' !in s ==> r == s
  {
    if s == [] then []
    else (if s[0] == '\'' then "''" else [s[0]]) + Sanitize(s[1..])
  }

  /** How an SQL engine reads the literal back: a doubled quote stands for one quote. */
  function Unescape(r: string): string {
    if |r| >= 2 && r[0] == '\'' && r[1] == '\'' then "'" + Unescape(r[2..])
    else if r == [] then []
    else [r[0]] + Unescape(r[1..])
  }

  /** Quotes in a sanitized value only come in pairs: no single quote is left to end the literal early. */
  predicate QuotesPaired(r: string) {
    if r == [] then true
    else if r[0] == '\'' then |r| >= 2 && r[1] == '\'' && QuotesPaired(r[2..])
    else QuotesPaired(r[1..])
  }

  /** The literal reads back as the original value, and its quotes are all doubled. */
  lemma {:induction false} SanitizeRoundTrip(s: string)
    ensures Unescape(Sanitize(s)) == s
    ensures QuotesPaired(Sanitize(s))
  {
    if s != [] {
      SanitizeRoundTrip(s[1..]);
      var r := Sanitize(s);
      if s[0] == '\'' {
        assert r[2..] == Sanitize(s[1..]);
      } else {
        assert r[1..] == Sanitize(s[1..]);
      }
      assert s == [s[0]] + s[1..];
    }
  }

  // ----- the ACTIVE status check of a quantity change -----

  /**
   * `str(status).upper() == "ACTIVE"`: a missing status reads as `"None"`, which is never
   * active; no whitespace is stripped.
   */
  predicate IsActive(status: Option<string>) {
    status.Some? && Upper(status.value) == "ACTIVE"
  }

  /** The status is active exactly when it is "active" in some letter case. */
  lemma IsActiveAnyCase(status: string)
    ensures IsActive(Some(status)) <==> Lower(status) == "active"
  {
    if IsActive(Some(status)) {
      assert |status| == 6;
      forall i | 0 <= i < 6 ensures LowerChar(status[i]) == "active"[i] {
        assert UpperChar(status[i]) == "ACTIVE"[i];
      }
      assert Lower(status) == "active";
    }
    if Lower(status) == "active" {
      assert |status| == 6;
      forall i | 0 <= i < 6 ensures UpperChar(status[i]) == "ACTIVE"[i] {
        assert LowerChar(status[i]) == "active"[i];
      }
      assert Upper(status) == "ACTIVE";
    }
  }

  /** A missing status reads as `"None"` and is not active. */
  lemma MissingNotActive()
    ensures !IsActive(None)
  {
  }

  /** A status with whitespace around it is not active: nothing is stripped. */
  lemma NotActive(status: string)
    requires |status| > 0 && (IsSpace(status[0]) || IsSpace(status[|status| - 1]))
    ensures !IsActive(Some(status))
  {
    assert Upper(status)[0] == UpperChar(status[0]);
    assert Upper(status)[|status| - 1] == UpperChar(status[|status| - 1]);
  }
}
