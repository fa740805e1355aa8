/** formatters.py: string presentation helpers (the floating-point ones are
    not part of this model). */
module Formatters {
  import opened Common

  // ---------------------------------------------------------------------
  // Currency symbol

  const Symbols: map<string, string> :=
    map["USD" := "$", "EUR" := "€", "GBP" := "£", "JPY" := "¥", "PLN" := "zł"]

  /** symbols.get(currency.upper(), currency + " ") */
  function GetCurrencySymbol(currency: string): (r: string)
    ensures UpperStr(currency) in Symbols ==> r == Symbols[UpperStr(currency)]
    ensures UpperStr(currency) !in Symbols ==> r == currency + " "
  {
    var code := UpperStr(currency);
    if code in Symbols then Symbols[code] else currency + " "
  }

  /** For a known code every spelling finds the same symbol; for an
      unknown one the fallback keeps each spelling as written. */
  lemma CurrencySymbolIgnoresCase(currency: string)
    ensures UpperStr(currency) in Symbols ==>
              GetCurrencySymbol(currency) == GetCurrencySymbol(UpperStr(currency)) == GetCurrencySymbol(LowerStr(currency))
    ensures UpperStr(currency) !in Symbols ==>
              GetCurrencySymbol(UpperStr(currency)) == UpperStr(currency) + " " &&
              GetCurrencySymbol(LowerStr(currency)) == LowerStr(currency) + " "
  {
    UpperOfCased(currency);
  }

  /** Examples: the lookup ignores letter case for known codes, while the
      fallback keeps the caller's spelling. */
  lemma CurrencySymbolCases()
    ensures GetCurrencySymbol("usd") == GetCurrencySymbol("USD") == "$"
    ensures GetCurrencySymbol("pLn") == "zł"
    ensures GetCurrencySymbol("cad") == "cad "
  {
    assert UpperStr("usd") == "USD";
    assert UpperStr("pLn") == "PLN";
    assert UpperStr("cad") == "CAD";
  }

  // ---------------------------------------------------------------------
  // Dates and phones

  /** format_date: "y-m-d" becomes "m/d/y" for the "us" style and "d.m.y"
      otherwise; anything that does not split into three parts is returned
      as it is. */
  function FormatDate(dateStr: string, style: string): string
  {
    var parts := Split(dateStr, '-');
    if |parts| != 3 then dateStr
    else if style == "us" then parts[1] + "/" + parts[2] + "/" + parts[0]
    else parts[2] + "." + parts[1] + "." + parts[0]
  }

  /** Rearranging the parts of a well-formed "y-m-d" date. */
  lemma FormatDateParts(y: string, m: string, d: string, style: string)
    requires '-' !in y && '-' !in m && '-' !in d
    ensures FormatDate(y + "-" + m + "-" + d, style) ==
              if style == "us" then m + "/" + d + "/" + y else d + "." + m + "." + y
  {
    var parts := [y, m, d];
    assert JoinChar(parts[2..], '-') == d;
    assert JoinChar(parts, '-') == y + "-" + m + "-" + d;
    JoinSplit(parts, '-');
  }

  /** A string that does not split into three parts is returned unchanged. */
  lemma FormatDateUnchanged(dateStr: string, style: string)
    requires Count(dateStr, '-') != 2
    ensures FormatDate(dateStr, style) == dateStr
  {
  }

  /** The digit characters of value, in order. */
  function ExtractDigits(value: string): (r: string)
    ensures forall i :: 0 <= i < |r| ==> IsDigit(r[i])
    ensures (forall i :: 0 <= i < |value| ==> IsDigit(value[i])) ==> r == value
  {
    DigitsOf(value)
  }

  /** extract_digits drops every non-digit character wherever it stands. */
  lemma ExtractDigitsSkipsNonDigits(a: string, c: char, b: string)
    ensures ExtractDigits(a + [c] + b) ==
              if IsDigit(c) then ExtractDigits(a) + [c] + ExtractDigits(b)
              else ExtractDigits(a) + ExtractDigits(b)
  {
    DigitsOfAppend(a + [c], b);
    DigitsOfAppend(a, [c]);
    assert [c][1..] == [];
  }

  /** format_phone: ten US digits become "(ddd) ddd-dddd"; anything else is
      returned unchanged. The result always carries the input's digits. */
  function FormatPhone(phone: string, country: string): (r: string)
    ensures ExtractDigits(r) == ExtractDigits(phone)
    ensures country == "US" && |ExtractDigits(phone)| == 10 ==>
              |r| == 14 && r[0] == '(' && r[4] == ')' && r[5] == ' ' && r[9] == '-' &&
              forall i :: 0 <= i < 14 && i != 0 && i != 4 && i != 5 && i != 9 ==> IsDigit(r[i])
    ensures !(country == "US" && |ExtractDigits(phone)| == 10) ==> r == phone
  {
    var digits := ExtractDigits(phone);
    if country == "US" && |digits| == 10 then
      var r := "(" + digits[..3] + ") " + digits[3..6] + "-" + digits[6..];
      PhoneDigits(digits);
      r
    else phone
  }

  lemma PhoneDigits(digits: string)
    requires |digits| == 10 && forall i :: 0 <= i < 10 ==> IsDigit(digits[i])
    ensures DigitsOf("(" + digits[..3] + ") " + digits[3..6] + "-" + digits[6..]) == digits
  {
    var a, b, c := digits[..3], digits[3..6], digits[6..];
    DigitsOfAppend("(" + a + ") " + b + "-", c);
    DigitsOfAppend("(" + a + ") " + b, "-");
    DigitsOfAppend("(" + a + ") ", b);
    DigitsOfAppend("(" + a, ") ");
    DigitsOfAppend("(", a);
    assert digits == a + b + c;
  }

  // ---------------------------------------------------------------------
  // Joining and capitalising

  predicate IsBlank(p: string)
  {
    p == "" || Strip(p) == ""
  }

  /** The parts kept by join_non_empty, in order. */
  function NonBlank(parts: seq<string>): (r: seq<string>)
    ensures |r| <= |parts|
    ensures forall i :: 0 <= i < |r| ==> !IsBlank(r[i]) && r[i] in parts
  {
    Filter(parts, p => !IsBlank(p))
  }

  function Join(parts: seq<string>, sep: string): string
  {
    if parts == [] then ""
    else if |parts| == 1 then parts[0]
    else parts[0] + sep + Join(parts[1..], sep)
  }

  /** separator.join(p for p in parts if p and p.strip()) */
  function JoinNonEmpty(parts: seq<string>, separator: string): string
  {
    Join(NonBlank(parts), separator)
  }

  /** A blank part, wherever it stands, does not change the joined text. */
  lemma JoinNonEmptySkipsBlank(a: seq<string>, p: string, b: seq<string>, separator: string)
    requires IsBlank(p)
    ensures JoinNonEmpty(a + [p] + b, separator) == JoinNonEmpty(a + b, separator)
  {
    var keep := (q: string) => !IsBlank(q);
    FilterAppend(a + [p], b, keep);
    FilterAppend(a, [p], keep);
    FilterAppend(a, b, keep);
    FilterNone([p], keep);
    assert Filter(a, keep) + [] == Filter(a, keep);
  }

  /** Non-blank parts are all kept and joined with the separator. */
  lemma JoinNonEmptyKeepsAll(parts: seq<string>, separator: string)
    requires forall i :: 0 <= i < |parts| ==> !IsBlank(parts[i])
    ensures JoinNonEmpty(parts, separator) == Join(parts, separator)
  {
    FilterAll(parts, (q: string) => !IsBlank(q));
  }

  /** Only blank parts join to the empty string. */
  lemma JoinNonEmptyAllBlank(parts: seq<string>, separator: string)
    requires forall i :: 0 <= i < |parts| ==> IsBlank(parts[i])
    ensures JoinNonEmpty(parts, separator) == ""
  {
    FilterNone(parts, (q: string) => !IsBlank(q));
  }

  /** capitalize_first: upper-cases the first character, keeps the rest. */
  function CapitalizeFirst(value: string): (r: string)
    ensures |r| == |value|
    ensures value != "" ==> r[0] == ToUpper(value[0]) && r[1..] == value[1..]
    ensures value == "" ==> r == ""
  {
    if value == "" then value else [ToUpper(value[0])] + value[1..]
  }

  // ---------------------------------------------------------------------
  // Errors and truncation

  /** truncate_string with Python slicing: value[:max_len - 3] + "...". */
  function TruncateString(value: string, maxLen: int): (r: string)
    ensures |value| <= maxLen ==> r == value
    ensures |value| > maxLen >= 3 ==>
              |r| == maxLen && r[..maxLen - 3] == value[..maxLen - 3] && r[maxLen - 3..] == "..."
    ensures maxLen >= 3 ==> |r| <= maxLen
  {
    if |value| <= maxLen then value else Take(value, maxLen - 3) + "..."
  }

  datatype ErrorBody = ErrorBody(code: string, message: string)

  /** What the services return: format_response(data) or format_error(...). */
  datatype Response<T> = Ok(data: T) | Error(error: ErrorBody)

  const MaxErrorMessage := 500

  /** format_error: the error code and its message cut to 500 characters. */
  function FormatError(code: string, message: string): (r: ErrorBody)
    ensures r.code == code
    ensures |r.message| <= MaxErrorMessage
    ensures |message| <= MaxErrorMessage ==> r.message == message
  {
    ErrorBody(code, TruncateString(message, MaxErrorMessage))
  }

  /** format_error(code, message) as a service result. */
  function Fail<T>(code: string, message: string): (r: Response<T>)
    ensures r.Error? && r.error.code == code
    ensures |message| <= MaxErrorMessage ==> r.error.message == message
  {
    Error(FormatError(code, message))
  }
}
