/** daybook/utils.py: the boolean-flag validator and the folder name of a
    day. The wall clock is not read here: the date is a parameter. */
module Utils {
  import opened Wrappers
  import opened Text

  /** Python truthiness of an optional string: None and "" are off. */
  predicate IsSet(o: Option<string>) {
    o.Some? && o.value != ""
  }

  // ---------------------------------------------------------- str_to_bool

  /** What a command-line flag can hold when it reaches `str_to_bool`. */
  datatype PyValue = PyNone | PyBool(b: bool) | PyStr(s: string)

  datatype ValidationError = InvalidInput(input: string)

  /** `str_to_bool`: None and booleans pass through; only the exact strings
      "True" and "False" convert; any other string is rejected. */
  function StrToBool(v: PyValue): (r: Result<Option<bool>, ValidationError>)
    ensures v.PyNone? ==> r == Success(None)
    ensures v.PyBool? ==> r == Success(Some(v.b))
    ensures v.PyStr? ==> (r.Success? <==> v.s in {"True", "False"})
    ensures v.PyStr? && r.Success? ==> r.value == Some(v.s == "True")
    ensures v.PyStr? && r.Failure? ==> r.error == InvalidInput(v.s)
  {
    match v
    case PyNone => Success(None)
    case PyBool(b) => Success(Some(b))
    case PyStr(s) =>
      if s != "False" && s != "True" then Failure(InvalidInput(s))
      else Success(Some(s == "True"))
  }

  /** The Python value a successful conversion hands back to the caller. */
  function AsPyValue(o: Option<bool>): PyValue {
    match o
    case None => PyNone
    case Some(b) => PyBool(b)
  }

  /** Converting an already converted flag changes nothing. */
  lemma StrToBoolIdempotent(v: PyValue)
    requires StrToBool(v).Success?
    ensures StrToBool(AsPyValue(StrToBool(v).value)) == StrToBool(v)
  {
  }

  // ----------------------------------------------------- get_current_date

  /** A calendar date as Python's `datetime` holds one. */
  datatype Date = Date(year: int, month: int, day: int)

  predicate IsLeapYear(y: int) {
    y % 4 == 0 && (y % 100 != 0 || y % 400 == 0)
  }

  function DaysInMonth(y: int, m: int): int {
    if m == 2 then (if IsLeapYear(y) then 29 else 28)
    else if m in {4, 6, 9, 11} then 30
    else 31
  }

  /** The dates `datetime` can represent. */
  predicate ValidDate(d: Date) {
    && 1 <= d.year <= 9999
    && 1 <= d.month <= 12
    && 1 <= d.day <= DaysInMonth(d.year, d.month)
  }

  /** `%m` and `%d`: two digits, zero padded. */
  function TwoDigits(n: nat): (s: string)
    requires n < 100
    ensures |s| == 2 && IsDigit(s[0]) && IsDigit(s[1])
  {
    [DigitChar(n / 10), DigitChar(n % 10)]
  }

  /** `strftime("%m_%d_%Y")`: the name of the folder that holds one day's
      entries. The year is rendered as its decimal digits. */
  function FormatDate(d: Date): (s: string)
    requires ValidDate(d)
    ensures |s| >= 7 && s[2] == '_' && s[5] == '_'
    ensures forall k :: 0 <= k < |s| && k != 2 && k != 5 ==> IsDigit(s[k])
  {
    TwoDigits(d.month) + "_" + TwoDigits(d.day) + "_" + NatToString(d.year)
  }

  /** For a four-digit year the folder name is exactly ten characters. */
  lemma DateFolderLength(d: Date)
    requires ValidDate(d) && 1000 <= d.year
    ensures |FormatDate(d)| == 10
  {
    NatToStringFourDigits(d.year);
  }

  predicate AllDigits(s: string) {
    forall k :: 0 <= k < |s| ==> IsDigit(s[k])
  }

  /** Reads an `MM_DD_YYYY` folder name back into a date. */
  function ParseDate(s: string): Option<Date> {
    var parts := Split(s, '_');
    if |parts| == 3 && (forall k :: 0 <= k < 3 ==> parts[k] != "" && AllDigits(parts[k])) then
      Some(Date(DigitsValue(parts[2]), DigitsValue(parts[0]), DigitsValue(parts[1])))
    else None
  }

  lemma TwoDigitsRoundTrip(n: nat)
    requires n < 100
    ensures DigitsValue(TwoDigits(n)) == n
  {
    var s := TwoDigits(n);
    assert DigitValue(s[0]) == n / 10 && DigitValue(s[1]) == n % 10;
    assert s[..1][..0] == [];
    assert DigitsValue(s[..1]) == n / 10;
    assert DigitsValue(s) == DigitsValue(s[..1]) * 10 + DigitValue(s[1]);
  }

  /** The folder name splits on `_` into month, day and year. */
  lemma FormatDateFields(d: Date)
    requires ValidDate(d)
    ensures Split(FormatDate(d), '_') == [TwoDigits(d.month), TwoDigits(d.day), NatToString(d.year)]
  {
    var m, dd, y := TwoDigits(d.month), TwoDigits(d.day), NatToString(d.year);
    assert '_' !in m && '_' !in dd && '_' !in y;
    SplitWithoutSeparator(y, '_');
    SplitAtFirst(dd, '_', y);
    var u := "_";
    SplitAtFirst(m, '_', dd + u + y);
    Regroup(m + u + dd, u, y);
    Regroup(m + u, dd, u + y);
    Regroup(dd, u, y);
    assert FormatDate(d) == m + u + (dd + u + y);
  }

  /** The folder name of a date gives back that date. */
  lemma DateRoundTrip(d: Date)
    requires ValidDate(d)
    ensures ParseDate(FormatDate(d)) == Some(d)
  {
    FormatDateFields(d);
    var parts := Split(FormatDate(d), '_');
    assert forall k :: 0 <= k < 3 ==> parts[k] != "" && AllDigits(parts[k]);
    TwoDigitsRoundTrip(d.month);
    TwoDigitsRoundTrip(d.day);
    NatToStringRoundTrip(d.year);
  }
}
