/**
  The job configuration handed to each pipeline stage: a JSON-like tree of named parameters,
  looked up the way Python subscripts dictionaries, and Python's `int()` on its text leaves.
 */
module JobConfig {
  import opened Results
  import opened Text

  /** A configuration value: text, a mapping of named values, or a list of values. */
  datatype ConfigValue =
    | Str(text: string)
    | Section(entries: map<string, ConfigValue>)
    | Items(items: seq<ConfigValue>)

  /** The exceptions a configuration lookup or conversion raises. */
  datatype ConfigError =
    | MissingKey(key: string)      // KeyError
    | NotASection(key: string)     // TypeError: subscripting something that is not a mapping
    | NotText(key: string)         // a text parameter holds a mapping or a list
    | NotAnInteger(text: string)   // ValueError from int()

  /** `value[key]`. */
  function Get(value: ConfigValue, key: string): (r: Result<ConfigValue, ConfigError>)
    ensures r.Success? <==> value.Section? && key in value.entries
    ensures r.Success? ==> r.value == value.entries[key]
    ensures value.Section? && key !in value.entries ==> r == Failure(MissingKey(key))
  {
    match value
    case Section(entries) => if key in entries then Success(entries[key]) else Failure(MissingKey(key))
    case _ => Failure(NotASection(key))
  }

  /** `value[key]` where the parameter is expected to be text. */
  function GetText(value: ConfigValue, key: string): Result<string, ConfigError> {
    var v :- Get(value, key);
    if v.Str? then Success(v.text) else Failure(NotText(key))
  }

  // ---------------------------------------------------------------------------
  // int()

  predicate IsSign(c: char) {
    c == '+' || c == '-'
  }

  /** Python's `int(text)` for a decimal literal: an optional sign, then one or more ASCII digits. */
  function ParseInt(text: string): Result<int, ConfigError> {
    var digits := if |text| > 0 && IsSign(text[0]) then text[1..] else text;
    if |digits| == 0 || !AllDigits(digits) then Failure(NotAnInteger(text))
    else if |text| > 0 && text[0] == '-' then Success(0 - ValueOf(digits) as int)
    else Success(ValueOf(digits))
  }

  function DecimalWidth(n: nat): (w: nat)
    ensures w >= 1 && n < Pow10(w)
  {
    if n < 10 then 1 else 1 + DecimalWidth(n / 10)
  }

  /** Python's `str(n)` on an int: minimal decimal digits, `-` for negatives. */
  function ShowInt(n: int): (s: string)
    ensures |s| > 0
  {
    if n < 0 then "-" + Digits(-n, DecimalWidth(-n)) else Digits(n, DecimalWidth(n))
  }

  /** `int(str(n)) == n`: every integer's decimal text parses back to it. */
  lemma ParseShowRoundTrip(n: int)
    ensures ParseInt(ShowInt(n)) == Success(n)
  {
    var m: nat := if n < 0 then -n else n;
    var digits := Digits(m, DecimalWidth(m));
    DigitsRoundTrip(m, DecimalWidth(m));
    if n < 0 {
      assert ShowInt(n)[1..] == digits;
    } else {
      assert !IsSign(digits[0]);
    }
  }
}
