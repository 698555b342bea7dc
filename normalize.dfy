/**
 * The two field cleaners of the scraper (`clean_numeric` and `clean_text`):
 * raw element text in, a typed value or the absence sentinel out.
 */
module FieldNormalizer {
  import opened Wrappers
  import opened Text

  /** The text the scraper substitutes for an element that is not on the page. */
  const Missing: string := "N/A"

  /** The sentinel `clean_text` returns for missing or empty text. */
  const Unknown: string := "INCONNU"

  /**
   * `clean_numeric`: nothing for the missing marker or for text without a
   * digit; otherwise the number its digits spell, every other character ignored.
   */
  function CleanNumeric(value: string): (r: Option<nat>)
    ensures r.None? <==> value == Missing || !HasDigit(value)
    ensures r.Some? ==> r.value == DigitsValue(Digits(value))
  {
    if value == Missing || value == "" then None
    else
      var cleaned := Digits(value);
      if cleaned == "" then None else Some(DigitsValue(cleaned))
  }

  /** `clean_numeric(str(n)) == n` for every non-negative `n`. */
  lemma CleanNumericDecimal(n: nat)
    ensures CleanNumeric(Decimal(n)) == Some(n)
  {
    var d := Decimal(n);
    assert d != Missing by { assert IsDigit(d[0]) && !IsDigit(Missing[0]); }
    assert HasDigit(d) by { assert IsDigit(d[0]); }
  }

  /** Cleaning the digits that `clean_numeric` keeps gives the same number again. */
  lemma CleanNumericOfDigits(value: string)
    ensures CleanNumeric(Digits(value)) == CleanNumeric(value)
  {
    var d := Digits(value);
    if d != [] {
      assert d != Missing by { assert IsDigit(d[0]) && !IsDigit(Missing[0]); }
      assert HasDigit(d) by { assert IsDigit(d[0]); }
    }
  }

  /** The missing marker holds no digit. */
  lemma MissingHasNoDigit()
    ensures !HasDigit(Missing)
  {
    assert forall i :: 0 <= i < |Missing| ==> Missing[i] in {'N', '/', 'A'};
  }

  /** `clean_numeric` reads nothing but the digits: inputs with the same digits clean alike. */
  lemma CleanNumericByDigits(v: string, w: string)
    requires Digits(v) == Digits(w)
    ensures CleanNumeric(v) == CleanNumeric(w)
  {
    MissingHasNoDigit();
  }

  /** Text without a digit, inserted anywhere, does not change what `clean_numeric` reads. */
  lemma CleanNumericIgnoresNonDigits(a: string, x: string, b: string)
    requires !HasDigit(x)
    ensures CleanNumeric(a + x + b) == CleanNumeric(a + b)
  {
    DigitsSkipNonDigits(a, x, b);
    CleanNumericByDigits(a + x + b, a + b);
  }

  lemma DigitsSkipNonDigits(a: string, x: string, b: string)
    requires !HasDigit(x)
    ensures Digits(a + x + b) == Digits(a + b)
  {
    DigitsAppend(a + x, b);
    DigitsAppend(a, x);
    DigitsAppend(a, b);
  }

  /** A non-empty digit string cleans to its own value. */
  lemma CleanNumericOfDigitString(d: string)
    requires d != [] && AllDigits(d)
    ensures CleanNumeric(d) == Some(DigitsValue(d))
  {
    MissingHasNoDigit();
    assert HasDigit(d) by { assert IsDigit(d[0]); }
  }

  /**
   * A price as the site prints it, digit groups with a separator between and
   * a currency after (`"12 345 FCFA"`), reads as the groups' digits joined
   * (`"12345"`, whose value `DigitsValueAppend` gives as `12 * 10^3 + 345`).
   */
  lemma CleanNumericJoinsDigitGroups(d1: string, x: string, d2: string, y: string)
    requires AllDigits(d1) && AllDigits(d2) && d1 + d2 != []
    requires !HasDigit(x) && !HasDigit(y)
    ensures AllDigits(d1 + d2) && CleanNumeric(d1 + x + d2 + y) == Some(DigitsValue(d1 + d2))
  {
    DigitsOfGroups(d1, x, d2, y);
    CleanNumericByDigits(d1 + x + d2 + y, d1 + d2);
    CleanNumericOfDigitString(d1 + d2);
  }

  lemma DigitsOfGroups(d1: string, x: string, d2: string, y: string)
    requires AllDigits(d1) && AllDigits(d2)
    requires !HasDigit(x) && !HasDigit(y)
    ensures Digits(d1 + x + d2 + y) == d1 + d2
  {
    assert Digits(x) == [] && Digits(y) == [];
    assert Digits(d1) == d1 && Digits(d2) == d2;
    DigitsAppend(d1, x);
    assert Digits(d1 + x) == d1;
    DigitsAppend(d1 + x, d2);
    assert Digits(d1 + x + d2) == d1 + d2;
    DigitsAppend(d1 + x + d2, y);
  }

  /**
   * `clean_text`: the sentinel for the missing marker or the empty string,
   * otherwise the text stripped and upper-cased. Whitespace-only text is not
   * caught by the sentinel test and comes out as the empty string.
   */
  function CleanText(value: string): (r: string)
    ensures value == Missing || value == "" ==> r == Unknown
    ensures value != Missing && value != "" ==> r == Upper(Strip(value))
    ensures r == "" <==> value != "" && IsBlank(value)
    ensures Trimmed(r)
    ensures forall i :: 0 <= i < |r| ==> !IsLowerAscii(r[i])
  {
    if value == Missing || value == "" then
      assert !IsSpace(Missing[0]);
      Unknown
    else
      var s := Strip(value);
      UpperKeepsTrimmed(s);
      Upper(s)
  }

  /** Text of one or more whitespace characters becomes `""`, not the sentinel. */
  lemma CleanTextBlank(value: string)
    requires value != "" && IsBlank(value)
    ensures CleanText(value) == ""
  {
    assert value != Missing by { assert !IsSpace(Missing[0]); }
  }

  /**
   * Cleaning a cleaned value changes nothing, except when the first result
   * is `""` (which becomes the sentinel) or `"N/A"` (likewise).
   */
  lemma CleanTextIdempotent(value: string)
    requires CleanText(value) != "" && CleanText(value) != Missing
    ensures CleanText(CleanText(value)) == CleanText(value)
  {
    var r := CleanText(value);
    assert Strip(r) == r;
    if value == Missing || value == "" {
      UnknownIsClean(r);
    } else {
      UpperIdempotent(Strip(value));
    }
  }

  /**
   * Text that strips to lower-case words, such as `" dakar "`, cleans to the
   * same words in capitals (`"DAKAR"`).
   */
  lemma CleanTextOfLowers(value: string, w: string)
    requires Strip(value) == w && w != [] && Lowers(w)
    ensures CleanText(value) == Upper(w)
    ensures Capitals(CleanText(value)) && |CleanText(value)| == |w|
  {
    MissingStripsToCapital();
    assert value != Missing;
    assert value != "";
    assert CleanText(value) == Upper(w);
    UpperOfLowers(w);
  }

  /** The missing marker strips to itself, which starts with a capital. */
  lemma MissingStripsToCapital()
    ensures Strip(Missing) == Missing && !Lowers(Missing)
  {
    assert Missing[0] == 'N' && Missing[|Missing| - 1] == 'A';
    assert !IsSpace('N') && !IsSpace('A');
    assert Trimmed(Missing);
  }

  /** The sentinel is its own cleaned form. */
  lemma UnknownIsClean(u: string)
    requires u == Unknown
    ensures CleanText(u) == u
  {
    assert u != Missing;
    assert u[0] == 'I' && u[|u| - 1] == 'U';
    assert !IsSpace('I') && !IsSpace('U');
    assert Trimmed(u);
    assert Capitals(u);
    UpperOfCapitals(u);
  }
}
