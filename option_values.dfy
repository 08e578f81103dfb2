// The values the option parsers produce: `None`, a string, an int from a
// digit string, a `TmuxArray` of raw strings (held as its index map), or the
// `terminal-features` dictionary from terminal pattern to feature list.
module OptionValues {
  import opened Text

  datatype OptionValue =
    | NoValue
    | Str(s: string)
    | Int(n: nat)
    | Array(items: map<int, string>)
    | Features(terms: map<string, seq<string>>)

  /**
   * `int(val) if val.isdigit() else val`: a non-empty all-digit string becomes
   * its integer value, anything else stays the string it was.
   */
  function Coerce(v: string): (r: OptionValue)
    ensures r.Int? || r.Str?
    ensures r.Int? <==> IsDigits(v)
    ensures r.Int? ==> r.n == DigitsValue(v)
    ensures r.Str? ==> r.s == v
  {
    if IsDigits(v) then Int(DigitsValue(v)) else Str(v)
  }

  /** The decimal form of a number always reads back as that number. */
  lemma CoerceNumber(n: nat)
    ensures Coerce(NatToString(n)) == Int(n)
  {
    NatToStringRoundTrip(n);
  }

  /** Leading zeros are lost: `"007"` reads back as `7`. */
  lemma CoerceLeadingZeros()
    ensures Coerce("007") == Int(7)
  {
    assert IsDigits("007");
    assert "007"[..2] == "00" && "00"[..1] == "0" && "0"[..0] == "";
    assert DigitsValue("0") == 0;
    assert DigitsValue("00") == 0;
  }

  /** An empty value (`copy-command ''`) and a `%` size stay strings. */
  lemma CoerceNonDigits()
    ensures Coerce("") == Str("")
    ensures Coerce("50%") == Str("50%")
  {
    assert !IsDigit("50%"[2]);
  }
}
