/** validators.py: boolean input checks. Amounts are integer cents, so
    validate_amount's two-decimal test always holds and only its range
    0.01 .. 999999.99 remains. */
module Validators {
  import opened Common

  // ---------------------------------------------------------------------
  // Scans used by several checks

  /** The characters refused in names and SKUs: < > & ' " \ */
  predicate IsSpecialChar(c: char)
  {
    c == '<' || c == '>' || c == '&' || c == '\'' || c == '"' || c == '\\'
  }

  /** The regular-expression search [<>&'"\\] of contains_special_chars. */
  function ContainsSpecialChars(s: string): (r: bool)
    ensures r <==> exists i :: 0 <= i < |s| && IsSpecialChar(s[i])
  {
    if s == [] then false
    else IsSpecialChar(s[0]) || (assert forall i :: 0 < i < |s| ==> s[i] == s[1..][i - 1]; ContainsSpecialChars(s[1..]))
  }

  datatype CharClass = Upper | Lower | Digit

  predicate InClass(c: char, cls: CharClass)
  {
    match cls
    case Upper => IsUpper(c)
    case Lower => IsLower(c)
    case Digit => IsDigit(c)
  }

  /** any(<class test>(c) for c in s) */
  function AnyOfClass(s: string, cls: CharClass): (r: bool)
    ensures r <==> exists i :: 0 <= i < |s| && InClass(s[i], cls)
  {
    if s == [] then false
    else InClass(s[0], cls) || (assert forall i :: 0 < i < |s| ==> s[i] == s[1..][i - 1]; AnyOfClass(s[1..], cls))
  }

  // ---------------------------------------------------------------------
  // E-mail and domain

  predicate ValidateDomain(domain: string)
  {
    domain != "" && '.' in domain && |domain| >= 3
  }

  /** validate_email: a non-empty string containing '@', split on '@' into
      exactly two parts, the second a valid domain. */
  predicate ValidateEmail(email: string)
  {
    if email == "" || '@' !in email then false
    else
      var parts := Split(email, '@');
      if |parts| != 2 then false else ValidateDomain(parts[1])
  }

  /** validate_email holds exactly when there is one '@' and the text after
      it contains '.' and is at least three characters long. */
  lemma ValidateEmailIff(email: string)
    ensures ValidateEmail(email) <==>
      && Count(email, '@') == 1
      && var domain := email[IndexOf(email, '@') + 1..];
         '.' in domain && |domain| >= 3
  {
    if Count(email, '@') == 1 {
      SplitOnce(email, '@');
    }
  }

  // ---------------------------------------------------------------------
  // Phone, zip, name, sku

  predicate ValidatePhone(phone: string)
  {
    var cleaned := DigitsOf(phone);
    |cleaned| >= 10 && |cleaned| <= 15
  }

  /** Formatting characters do not matter to validate_phone: inserting any
      non-digit character anywhere leaves the verdict unchanged. */
  lemma PhoneIgnoresFormatting(a: string, c: char, b: string)
    requires !IsDigit(c)
    ensures ValidatePhone(a + [c] + b) == ValidatePhone(a + b)
  {
    DigitsOfAppend(a + [c], b);
    DigitsOfAppend(a, [c]);
    DigitsOfAppend(a, b);
    assert DigitsOf([c]) == [];
  }

  predicate ValidateZip(zipCode: string)
  {
    var cleaned := DigitsOf(zipCode);
    |cleaned| == 5 || |cleaned| == 9
  }

  /** A zip code of only digits is valid exactly when it has 5 or 9 of them. */
  lemma ZipOfDigits(zipCode: string)
    requires forall i :: 0 <= i < |zipCode| ==> IsDigit(zipCode[i])
    ensures ValidateZip(zipCode) <==> |zipCode| == 5 || |zipCode| == 9
  {
  }

  function ValidateName(name: string): (r: bool)
    ensures r <==> |name| >= 2 && forall i :: 0 <= i < |name| ==> !IsSpecialChar(name[i])
  {
    if name == "" || |name| < 2 then false else !ContainsSpecialChars(name)
  }

  function ValidateSku(sku: string): (r: bool)
    ensures r <==> |sku| >= 3 && forall i :: 0 <= i < |sku| ==> !IsSpecialChar(sku[i])
  {
    if sku == "" || |sku| < 3 then false else !ContainsSpecialChars(sku)
  }

  // ---------------------------------------------------------------------
  // Currency, amount, quantity

  const ValidCurrencies: set<string> := {"USD", "EUR", "GBP", "JPY", "PLN", "CAD"}

  predicate ValidateCurrency(currency: string)
  {
    UpperStr(currency) in ValidCurrencies
  }

  /** validate_currency ignores letter case. */
  lemma CurrencyCaseInsensitive(a: string, b: string)
    requires LowerStr(a) == LowerStr(b)
    ensures ValidateCurrency(a) == ValidateCurrency(b)
  {
    assert forall i :: 0 <= i < |a| ==> ToLower(a[i]) == ToLower(b[i]);
    assert forall i :: 0 <= i < |a| ==> ToUpper(a[i]) == ToUpper(b[i]) by {
      forall i | 0 <= i < |a| ensures ToUpper(a[i]) == ToUpper(b[i]) {
        CaseFold(a[i], b[i]);
      }
    }
    assert UpperStr(a) == UpperStr(b);
  }

  lemma CaseFold(x: char, y: char)
    requires ToLower(x) == ToLower(y)
    ensures ToUpper(x) == ToUpper(y)
  {
  }

  /** Every accepted currency code has three letters. */
  lemma CurrencyCodeLength(currency: string)
    requires ValidateCurrency(currency)
    ensures |currency| == 3
  {
  }

  /** validate_amount in cents: 0.01 <= amount <= 999999.99. */
  predicate ValidateAmount(cents: int)
  {
    1 <= cents <= 99_999_999
  }

  const MaxQuantity := 10000

  predicate ValidateQuantity(quantity: int)
  {
    0 < quantity <= MaxQuantity
  }

  // ---------------------------------------------------------------------
  // Password and date

  function ValidatePassword(password: string): (r: bool)
    ensures r <==>
      && |password| >= 8
      && (exists i :: 0 <= i < |password| && IsUpper(password[i]))
      && (exists i :: 0 <= i < |password| && IsLower(password[i]))
      && (exists i :: 0 <= i < |password| && IsDigit(password[i]))
  {
    if |password| < 8 then false
    else AnyOfClass(password, Upper) && AnyOfClass(password, Lower) && AnyOfClass(password, Digit)
  }

  predicate ValidateDate(dateStr: string)
  {
    var parts := Split(dateStr, '-');
    |parts| == 3 && AllDigits(parts[0]) && AllDigits(parts[1]) && AllDigits(parts[2])
  }

  /** An accepted date has exactly two '-' and otherwise only digits. */
  lemma {:induction false} ValidDateShape(dateStr: string)
    requires ValidateDate(dateStr)
    ensures Count(dateStr, '-') == 2
    ensures forall i :: 0 <= i < |dateStr| ==> IsDigit(dateStr[i]) || dateStr[i] == '-'
  {
    var parts := Split(dateStr, '-');
    SplitJoin(dateStr, '-');
    assert JoinChar(parts[2..], '-') == parts[2];
    assert JoinChar(parts[1..], '-') == parts[1] + ['-'] + parts[2];
    var s := parts[0] + ['-'] + parts[1] + ['-'] + parts[2];
    assert dateStr == s;
    forall i | 0 <= i < |dateStr| ensures IsDigit(dateStr[i]) || dateStr[i] == '-' {
      if i < |parts[0]| {
        assert dateStr[i] == parts[0][i];
      } else if i == |parts[0]| {
      } else if i < |parts[0]| + 1 + |parts[1]| {
        assert dateStr[i] == parts[1][i - |parts[0]| - 1];
      } else if i == |parts[0]| + 1 + |parts[1]| {
      } else {
        assert dateStr[i] == parts[2][i - |parts[0]| - |parts[1]| - 2];
      }
    }
  }
}
