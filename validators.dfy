/**
 * The field validators of the registry (`app_registros/validators.py`).
 *
 * Each validator is called with the field's value and has three outcomes:
 * it returns nothing for a falsy value (`Skipped`), returns a possibly
 * normalised value (`Valid`), or raises a `ValidationError` with a code
 * (`Invalid`). Values are strings unless the field is numeric; the empty
 * string is Python's falsy string.
 */
module Validators {
  import opened Wrappers
  import opened Text
  import opened Sequences

  /** A requirement the password validator reports as unmet. */
  datatype Requirement =
    | MinLength(n: int)
    | UpperCase
    | LowerCase
    | DigitChar
    | SpecialChar

  /** The `code=` of each `ValidationError` the validators raise. */
  datatype Code =
    | InvalidDni
    | InvalidDniLength
    | InvalidCuitFormat
    | InvalidCuitDv
    | InvalidChars
    | TooShort
    | TooLong
    | InvalidPhone
    | InvalidEmail
    | InvalidDomain
    | PasswordEmpty
    | WeakPassword(unmet: seq<Requirement>)
    | DuplicateNumber
    | InvalidNumber

  datatype Check<+T> = Skipped | Valid(value: T) | Invalid(code: Code)

  // ===== DNI =====

  predicate IsDniSeparator(c: char) { c == '.' || c == ' ' || c == '-' }

  /** `str(value).replace('.', '').replace(' ', '').replace('-', '')` */
  function CleanDni(value: string): (r: string)
    ensures |r| <= |value|
    ensures forall i :: 0 <= i < |r| ==> !IsDniSeparator(r[i])
  {
    Filter(value, c => !IsDniSeparator(c))
  }

  /** Python's `str.isdigit`: non-empty and every character a digit. */
  predicate IsDigitString(s: string) { |s| > 0 && AllDigits(s) }

  function Dni(value: string): (r: Check<string>)
    ensures r.Skipped? <==> value == []
    ensures r.Valid? <==>
      value != [] && IsDigitString(CleanDni(value)) && 7 <= |CleanDni(value)| <= 8
    ensures r.Valid? ==> r.value == CleanDni(value)
    // the digit test comes first: a non-digit never reports a bad length
    ensures r == Invalid(InvalidDni) <==> value != [] && !IsDigitString(CleanDni(value))
    ensures r == Invalid(InvalidDniLength) <==>
      value != [] && IsDigitString(CleanDni(value)) && !(7 <= |CleanDni(value)| <= 8)
  {
    if value == [] then Skipped
    else
      var limpio := CleanDni(value);
      if !IsDigitString(limpio) then Invalid(InvalidDni)
      else if |limpio| < 7 || |limpio| > 8 then Invalid(InvalidDniLength)
      else Valid(limpio)
  }

  /** An accepted DNI is a plain string of 7 or 8 digits, accepted again as itself. */
  lemma DniNormalForm(value: string)
    requires Dni(value).Valid?
    ensures AllDigits(Dni(value).value) && 7 <= |Dni(value).value| <= 8
    ensures Dni(Dni(value).value) == Dni(value)
  {
    var v := Dni(value).value;
    FilterAllPass(v, c => !IsDniSeparator(c));
  }

  /** Removing separators keeps every other character of the input. */
  lemma DniKeepsOtherChars(value: string, c: char)
    ensures c in CleanDni(value) <==> c in value && !IsDniSeparator(c)
  {
    FilterMembers(value, x => !IsDniSeparator(x), c);
  }

  /** A value made only of separators is cleaned to "" and fails the digit test. */
  lemma DniOnlySeparators()
    ensures Dni("..") == Invalid(InvalidDni)
  {
    FilterHead("..", c => !IsDniSeparator(c));
    FilterHead(".", c => !IsDniSeparator(c));
  }

  // ===== CUIT =====

  /** `^\d{2}-\d{8}-\d{1}$` */
  predicate CuitFormat(s: string) {
    && |s| == 13
    && s[2] == '-' && s[11] == '-'
    && (forall i :: 0 <= i < 13 && i != 2 && i != 11 ==> IsDigit(s[i]))
  }

  const CuitWeights: seq<nat> := [5, 4, 3, 2, 7, 6, 5, 4, 3, 2]

  /** `sum(int(d[i]) * coeficientes[i] for i in range(n))` */
  function WeightedSum(d: string, n: nat): (s: nat)
    requires n <= 10 && n <= |d|
    requires forall i :: 0 <= i < n ==> IsDigit(d[i])
    ensures s <= 63 * n
  {
    if n == 0 then 0
    else WeightedSum(d, n - 1) + DigitValue(d[n - 1]) * CuitWeights[n - 1]
  }

  /** The ten products written out: `5·d0 + 4·d1 + 3·d2 + 2·d3 + 7·d4 + 6·d5 + 5·d6 + 4·d7 + 3·d8 + 2·d9`. */
  lemma WeightedSumClosedForm(d: string)
    requires |d| >= 10 && forall i :: 0 <= i < 10 ==> IsDigit(d[i])
    ensures WeightedSum(d, 10) ==
      5 * DigitValue(d[0]) + 4 * DigitValue(d[1]) + 3 * DigitValue(d[2]) + 2 * DigitValue(d[3]) +
      7 * DigitValue(d[4]) + 6 * DigitValue(d[5]) + 5 * DigitValue(d[6]) + 4 * DigitValue(d[7]) +
      3 * DigitValue(d[8]) + 2 * DigitValue(d[9])
  {
    forall n | 0 < n <= 10
      ensures WeightedSum(d, n) == WeightedSum(d, n - 1) + DigitValue(d[n - 1]) * CuitWeights[n - 1]
    {
    }
    assert CuitWeights[0] == 5 && CuitWeights[1] == 4 && CuitWeights[2] == 3 && CuitWeights[3] == 2;
    assert CuitWeights[4] == 7 && CuitWeights[5] == 6 && CuitWeights[6] == 5;
    assert CuitWeights[7] == 4 && CuitWeights[8] == 3 && CuitWeights[9] == 2;
  }

  /** The check digit as the validator computes it from the weighted sum. */
  function CheckDigit(suma: nat): (dv: int)
    ensures 0 <= dv <= 9
    // the usual mod-11 digit, except that a remainder of 1 (digit 10) gives 9
    ensures suma % 11 != 1 ==> (suma + dv) % 11 == 0
    ensures suma % 11 == 1 ==> dv == 9
  {
    var resto := suma % 11;
    var dv := if resto != 0 then 11 - resto else 0;
    if dv == 10 then 9
    else if dv == 11 then 1
    else dv
  }

  /** The `digito_verificador == 11` branch is never taken. */
  lemma CheckDigitNeverEleven(suma: nat)
    ensures (if suma % 11 != 0 then 11 - suma % 11 else 0) != 11
  {
  }

  /** The eleven digits of a formatted CUIT, read off without the dashes. */
  function CuitDigits(s: string): (d: string)
    requires CuitFormat(s)
    ensures |d| == 11 && AllDigits(d)
  {
    s[..2] + s[3..11] + s[12..]
  }

  /** `str(value).replace('-', '')` on a formatted CUIT is its eleven digits. */
  lemma CuitCleanIsDigits(s: string)
    requires CuitFormat(s)
    ensures Filter(s, c => c != '-') == CuitDigits(s)
  {
    var f := (c: char) => c != '-';
    assert s == s[..2] + [s[2]] + s[3..11] + [s[11]] + s[12..];
    FilterConcat(s[..2] + [s[2]] + s[3..11] + [s[11]], s[12..], f);
    FilterConcat(s[..2] + [s[2]] + s[3..11], [s[11]], f);
    FilterConcat(s[..2] + [s[2]], s[3..11], f);
    FilterConcat(s[..2], [s[2]], f);
    FilterHead([s[2]], f);
    FilterHead([s[11]], f);
    FilterAllPass(s[..2], f);
    FilterAllPass(s[3..11], f);
    FilterAllPass(s[12..], f);
  }

  function Cuit(value: string): (r: Check<string>)
    ensures r.Skipped? <==> value == []
    ensures r == Invalid(InvalidCuitFormat) <==> value != [] && !CuitFormat(value)
    ensures CuitFormat(value) ==>
      (r == Valid(value) <==>
         CheckDigit(WeightedSum(CuitDigits(value), 10)) == DigitValue(value[12]))
    ensures CuitFormat(value) ==>
      (r == Invalid(InvalidCuitDv) <==>
         CheckDigit(WeightedSum(CuitDigits(value), 10)) != DigitValue(value[12]))
  {
    if value == [] then Skipped
    else if !CuitFormat(value) then Invalid(InvalidCuitFormat)
    else
      var limpio := Filter(value, c => c != '-');
      CuitCleanIsDigits(value);
      var dv := CheckDigit(WeightedSum(limpio, 10));
      if dv != DigitValue(limpio[10]) then Invalid(InvalidCuitDv)
      else Valid(value)
  }

  /** Weights 5,4,3,2,7,6,5,4,3,2 on 2,0,1,2,3,4,5,6,7,8 sum to 148; 148 mod 11 is 5, so the digit is 6. */
  lemma CuitAccepted()
    ensures Cuit("20-12345678-6") == Valid("20-12345678-6")
  {
    var v := "20-12345678-6";
    assert CuitFormat(v);
    assert CuitDigits(v) == "20123456786" by { CuitDigitsOfExample(v, '6'); }
    var d := "20123456786";
    assert WeightedSum(d, 4) == 17;
    assert WeightedSum(d, 7) == 87;
    assert WeightedSum(d, 10) == 148;
  }

  /** The same ten digits with a wrong last digit. */
  lemma CuitRejected()
    ensures Cuit("20-12345678-9") == Invalid(InvalidCuitDv)
  {
    var v := "20-12345678-9";
    assert CuitFormat(v);
    assert CuitDigits(v) == "20123456789" by { CuitDigitsOfExample(v, '9'); }
    var d := "20123456789";
    assert WeightedSum(d, 4) == 17;
    assert WeightedSum(d, 7) == 87;
    assert WeightedSum(d, 10) == 148;
  }

  lemma CuitDigitsOfExample(v: string, last: char)
    requires v == "20-12345678-" + [last] && IsDigit(last)
    ensures CuitFormat(v) && CuitDigits(v) == "2012345678" + [last]
  {
    var d := CuitDigits(v);
    assert |d| == 11;
    forall i | 0 <= i < 11 ensures d[i] == ("2012345678" + [last])[i] {
      if i < 2 { assert d[i] == v[i]; }
      else if i < 10 { assert d[i] == v[i + 1]; }
      else { assert d[i] == v[12]; }
    }
  }

  // ===== names =====

  function Name(value: string): (r: Check<string>)
    ensures r.Skipped? <==> value == []
    ensures r == Invalid(InvalidChars) <==> value != [] && !AllNameChars(value)
    ensures r == Invalid(TooShort) <==>
      value != [] && AllNameChars(value) && |Strip(value)| < 2
    ensures r == Invalid(TooLong) <==>
      AllNameChars(value) && |Strip(value)| >= 2 && |value| > 50
    ensures value != [] && AllNameChars(value) && |Strip(value)| >= 2 && |value| <= 50 ==>
      r == Valid(Strip(Title(value)))
    ensures r.Valid? ==> r.value == Strip(Title(value))
  {
    if value == [] then Skipped
    else if !AllNameChars(value) then Invalid(InvalidChars)
    else if |Strip(value)| < 2 then Invalid(TooShort)
    else if |value| > 50 then Invalid(TooLong)
    else Valid(Strip(Title(value)))
  }

  /** `value.title().strip()` is the stripped input, title-cased word by word. */
  lemma NameNormalForm(value: string)
    requires Name(value).Valid?
    ensures 2 <= |Name(value).value| <= 50
    ensures var n := Name(value).value; !IsSpace(n[0]) && !IsSpace(n[|n| - 1])
    ensures AllNameChars(Name(value).value)
    ensures IsTitled(Name(value).value)
    ensures LowerStr(Name(value).value) == LowerStr(Strip(value))
  {
    var n := Strip(Title(value));
    var m := Strip(value);
    StripTitle(value);
    StripKeepsNameChars(value);
    SameLowerSameClass(m, n);
  }

  /** A name already in normal form is accepted unchanged. */
  lemma NameIdempotent(value: string)
    requires Name(value).Valid?
    ensures Name(Name(value).value) == Name(value)
  {
    var n := Name(value).value;
    assert 2 <= |n| <= 50 && AllNameChars(n) && IsTitled(n) && !IsSpace(n[0]) && !IsSpace(n[|n| - 1]) by {
      NameNormalForm(value);
    }
    NormalNameFixed(n);
  }

  /** A name in normal form (trimmed, titled, of an accepted length) is accepted as it is. */
  lemma NormalNameFixed(n: string)
    requires 2 <= |n| <= 50 && AllNameChars(n) && IsTitled(n)
    requires !IsSpace(n[0]) && !IsSpace(n[|n| - 1])
    ensures Name(n) == Valid(n)
  {
    StripTrimmed(n);
    TitleUnique(n, n);
  }

  /** "juan pérez" is stored as "Juan Pérez". */
  lemma NameExample()
    ensures Name("juan pérez") == Valid("Juan Pérez")
  {
    var v := "juan pérez";
    var w := "Juan Pérez";
    assert AllNameChars(v);
    StripTrimmed(v);
    assert LowerStr(v) == LowerStr(w) by {
      forall i | 0 <= i < |v| ensures LowerStr(v)[i] == LowerStr(w)[i] {}
    }
    assert IsTitled(w) by {
      forall i | 0 <= i < |w| ensures WordCaseAt(w, i) {}
    }
    TitleUnique(v, w);
    StripTrimmed(w);
  }

  // ===== telephone numbers =====

  /**
   * A fixed layout written as a string: `#` stands for one digit (`\d`),
   * every other character for itself. No pattern contains a literal `#`.
   */
  predicate MatchesLayout(s: string, layout: string) {
    && |s| == |layout|
    && forall i :: 0 <= i < |s| ==> if layout[i] == '#' then IsDigit(s[i]) else s[i] == layout[i]
  }

  /** The six accepted patterns, in the order they are listed. */
  const PhoneLayouts: seq<string> := [
    "##########",       // ^\d{10}$
    "########",         // ^\d{8}$
    "+54 ## ########",  // ^\+54 \d{2} \d{8}$
    "+54 ##########",   // ^\+54 \d{10}$
    "(###) ###-####",   // ^\(\d{3}\) \d{3}-\d{4}$
    "##-########"       // ^\d{2}-\d{8}$
  ]

  predicate IsPhone(s: string) {
    exists k :: 0 <= k < |PhoneLayouts| && MatchesLayout(s, PhoneLayouts[k])
  }

  function Phone(value: string): (r: Check<string>)
    ensures r.Skipped? <==> value == []
    ensures r.Valid? <==> value != [] && IsPhone(Strip(value))
    ensures r.Valid? ==> r.value == Strip(value)
    ensures !r.Valid? && !r.Skipped? ==> r == Invalid(InvalidPhone)
  {
    if value == [] then Skipped
    else
      var valor := Strip(value);
      if !IsPhone(valor) then Invalid(InvalidPhone)
      else Valid(valor)
  }

  /** An accepted number has no surrounding whitespace and is accepted again as itself. */
  lemma PhoneIdempotent(value: string)
    requires Phone(value).Valid?
    ensures Phone(Phone(value).value) == Phone(value)
  {
    var v := Phone(value).value;
    var k :| 0 <= k < |PhoneLayouts| && MatchesLayout(v, PhoneLayouts[k]);
    var layout := PhoneLayouts[k];
    assert layout[0] == '#' || layout[0] == '+' || layout[0] == '(';
    assert layout[|layout| - 1] == '#';
    StripTrimmed(v);
  }

  /** The first layout, as in its comment and the error message. */
  lemma PhoneTenDigits()
    ensures Phone("3511234567") == Valid("3511234567")
  {
    StripTrimmed("3511234567");
    assert MatchesLayout("3511234567", PhoneLayouts[0]);
  }

  /** The layout with parentheses, as in its comment and the error message. */
  lemma PhoneParenthesised()
    ensures Phone("(351) 123-4567") == Valid("(351) 123-4567")
  {
    StripTrimmed("(351) 123-4567");
    assert MatchesLayout("(351) 123-4567", PhoneLayouts[4]);
  }

  /** Surrounding whitespace is removed before matching and from the stored value. */
  lemma PhoneStripped()
    ensures Phone(" 12345678 ") == Valid("12345678")
  {
    var v := " 12345678 ";
    assert StripStart(v) == 1;
    var s := Strip(v);
    assert s == v[1..9];
    assert s == "12345678";
    assert MatchesLayout(s, PhoneLayouts[1]);
  }

  /**
   * The example beside the third pattern, also quoted in the error message,
   * does not match it: the pattern wants two digits then eight, the example
   * has three then seven.
   */
  lemma PhoneInternationalExampleRejected()
    ensures Phone("+54 351 1234567") == Invalid(InvalidPhone)
  {
    var v := "+54 351 1234567";
    StripTrimmed(v);
    forall k | 0 <= k < |PhoneLayouts| ensures !MatchesLayout(v, PhoneLayouts[k]) {
      if k == 2 {
        assert PhoneLayouts[2][6] == ' ' && v[6] == '1';
      }
    }
  }

  /** The example beside the last pattern does not match it either (three digits, then seven). */
  lemma PhoneDashedExampleRejected()
    ensures Phone("351-1234567") == Invalid(InvalidPhone)
  {
    var v := "351-1234567";
    StripTrimmed(v);
    forall k | 0 <= k < |PhoneLayouts| ensures !MatchesLayout(v, PhoneLayouts[k]) {
      if k == 5 {
        assert PhoneLayouts[5][2] == '-' && v[2] == '1';
      }
    }
  }

  // ===== e-mail addresses =====

  predicate IsLocalChar(c: char) {
    IsAsciiLetter(c) || IsDigit(c) || c == '.' || c == '_' || c == '%' || c == '+' || c == '-'
  }

  predicate IsHostChar(c: char) {
    IsAsciiLetter(c) || IsDigit(c) || c == '.' || c == '-'
  }

  /** `[a-zA-Z0-9.-]+\.[a-zA-Z]{2,}` over the whole host part. */
  predicate HostSyntax(h: string) {
    exists dot :: 1 <= dot && dot + 3 <= |h| && h[dot] == '.'
      && (forall i :: 0 <= i < dot ==> IsHostChar(h[i]))
      && (forall i :: dot < i < |h| ==> IsAsciiLetter(h[i]))
  }

  /** `^[a-zA-Z0-9._%+-]+@[a-zA-Z0-9.-]+\.[a-zA-Z]{2,}$` */
  predicate EmailSyntax(e: string) {
    exists at :: 0 < at < |e| && e[at] == '@'
      && (forall i :: 0 <= i < at ==> IsLocalChar(e[i]))
      && HostSyntax(e[at + 1..])
  }

  const EmailDomains: seq<string> := [".com", ".com.ar", ".ar", ".gob.ar", ".edu.ar", ".org", ".net"]

  predicate AllowedDomain(e: string) {
    exists k :: 0 <= k < |EmailDomains| && EndsWith(e, EmailDomains[k])
  }

  /** `str(value).strip().lower()` */
  function NormalizeEmail(value: string): (e: string)
    ensures |e| <= |value|
    ensures LowerStr(e) == e
    ensures e == [] || (!IsSpace(e[0]) && !IsSpace(e[|e| - 1]))
    ensures LowerStr(e) == LowerStr(Strip(value))
  {
    var e := LowerStr(Strip(value));
    assert LowerStr(e) == e by {
      forall i | 0 <= i < |e| ensures LowerStr(e)[i] == e[i] { CaseRoundTrips(Strip(value)[i]); }
    }
    e
  }

  function Email(value: string): (r: Check<string>)
    ensures r.Skipped? <==> value == []
    ensures r == Invalid(InvalidEmail) <==> value != [] && !EmailSyntax(NormalizeEmail(value))
    ensures r == Invalid(InvalidDomain) <==>
      value != [] && EmailSyntax(NormalizeEmail(value)) && !AllowedDomain(NormalizeEmail(value))
    ensures value != [] && EmailSyntax(NormalizeEmail(value)) && AllowedDomain(NormalizeEmail(value)) ==>
      r == Valid(NormalizeEmail(value))
    ensures r.Valid? ==> r.value == NormalizeEmail(value)
  {
    if value == [] then Skipped
    else
      var email := NormalizeEmail(value);
      if !EmailSyntax(email) then Invalid(InvalidEmail)
      else if !AllowedDomain(email) then Invalid(InvalidDomain)
      else Valid(email)
  }

  /** The seven suffixes accept exactly the addresses ending in .com, .ar, .org or .net. */
  lemma AllowedDomainSimplified(e: string)
    ensures AllowedDomain(e) <==>
      EndsWith(e, ".com") || EndsWith(e, ".ar") || EndsWith(e, ".org") || EndsWith(e, ".net")
  {
    if EndsWith(e, ".com.ar") || EndsWith(e, ".gob.ar") || EndsWith(e, ".edu.ar") {
      assert e[|e| - 3..] == e[|e| - 7..][4..];
      assert EndsWith(e, EmailDomains[2]);
    }
    if EndsWith(e, ".com") { assert EndsWith(e, EmailDomains[0]); }
    if EndsWith(e, ".ar") { assert EndsWith(e, EmailDomains[2]); }
    if EndsWith(e, ".org") { assert EndsWith(e, EmailDomains[5]); }
    if EndsWith(e, ".net") { assert EndsWith(e, EmailDomains[6]); }
  }

  /** An accepted address is in lower case, trimmed, and accepted again as itself. */
  lemma EmailIdempotent(value: string)
    requires Email(value).Valid?
    ensures forall i :: 0 <= i < |Email(value).value| ==> !IsUpperLetter(Email(value).value[i])
    ensures Email(Email(value).value) == Email(value)
  {
    var s := Strip(value);
    var e := LowerStr(s);
    forall i | 0 <= i < |e| ensures !IsUpperLetter(e[i]) && ToLower(e[i]) == e[i] {
      CaseRoundTrips(s[i]);
    }
    assert e != [];
    assert !IsSpace(e[0]) && !IsSpace(e[|e| - 1]);
    StripTrimmed(e);
    assert LowerStr(e) == e;
  }

  /** The address is lower-cased before both checks and stored lower-cased. */
  lemma EmailExample()
    ensures Email("Ana@Campo.COM.AR") == Valid("ana@campo.com.ar")
  {
    var v := "Ana@Campo.COM.AR";
    var e := "ana@campo.com.ar";
    StripTrimmed(v);
    LowerExample();
    assert NormalizeEmail(v) == e;
    EmailAccepted();
  }

  lemma LowerExample()
    ensures LowerStr("Ana@Campo.COM.AR") == "ana@campo.com.ar"
  {
    var v := "Ana@Campo.COM.AR";
    var e := LowerStr(v);
    forall i | 0 <= i < |v| ensures e[i] == "ana@campo.com.ar"[i] {}
  }

  lemma EmailAccepted()
    ensures EmailSyntax("ana@campo.com.ar") && AllowedDomain("ana@campo.com.ar")
  {
    var e := "ana@campo.com.ar";
    var h := e[4..];
    assert h == "campo.com.ar";
    assert HostSyntax(h) by { assert h[9] == '.'; }
    assert e[3] == '@';
    assert EndsWith(e, EmailDomains[1]);
  }

  // ===== passwords =====

  datatype PasswordPolicy = PasswordPolicy(
    minLength: int, requireUpper: bool, requireLower: bool, requireDigit: bool)

  /** `PasswordValidator()` with its default arguments. */
  const DefaultPolicy := PasswordPolicy(8, true, true, true)

  /** The class `[!@#$%^&*(),.?":{}|<>]`. */
  predicate IsSpecialChar(c: char) {
    c == '!' || c == '@' || c == '#' || c == '$' || c == '%' || c == '^' || c == '&'
    || c == '*' || c == '(' || c == ')' || c == ',' || c == '.' || c == '?' || c == '"'
    || c == ':' || c == '{' || c == '}' || c == '|' || c == '<' || c == '>'
  }

  predicate HasUpper(s: string) { exists i :: 0 <= i < |s| && IsUpperLetter(s[i]) }
  predicate HasLower(s: string) { exists i :: 0 <= i < |s| && IsLowerLetter(s[i]) }
  predicate HasDigit(s: string) { exists i :: 0 <= i < |s| && IsDigit(s[i]) }
  predicate HasSpecial(s: string) { exists i :: 0 <= i < |s| && IsSpecialChar(s[i]) }

  /** Position of each requirement in the order the validator tests them. */
  function Rank(q: Requirement): nat {
    match q
    case MinLength(_) => 0
    case UpperCase => 1
    case LowerCase => 2
    case DigitChar => 3
    case SpecialChar => 4
  }

  predicate Unmet(p: PasswordPolicy, password: string, q: Requirement) {
    match q
    case MinLength(n) => n == p.minLength && |password| < p.minLength
    case UpperCase => p.requireUpper && !HasUpper(password)
    case LowerCase => p.requireLower && !HasLower(password)
    case DigitChar => p.requireDigit && !HasDigit(password)
    case SpecialChar => !HasSpecial(password)
  }

  /** The `errors` list: every unmet requirement, once, in test order. */
  function UnmetRequirements(p: PasswordPolicy, password: string): seq<Requirement> {
    var errs := AppendIf([], |password| < p.minLength, MinLength(p.minLength));
    var errs := AppendIf(errs, p.requireUpper && !HasUpper(password), UpperCase);
    var errs := AppendIf(errs, p.requireLower && !HasLower(password), LowerCase);
    var errs := AppendIf(errs, p.requireDigit && !HasDigit(password), DigitChar);
    AppendIf(errs, !HasSpecial(password), SpecialChar)
  }

  /** `if cond: errors.append(q)` */
  function AppendIf(errs: seq<Requirement>, cond: bool, q: Requirement): seq<Requirement> {
    if cond then errs + [q] else errs
  }

  /** The list holds every unmet requirement and no other, in test order. */
  lemma UnmetRequirementsSpec(p: PasswordPolicy, password: string)
    ensures forall q :: q in UnmetRequirements(p, password) <==> Unmet(p, password, q)
    ensures var errs := UnmetRequirements(p, password);
      forall i, j :: 0 <= i < j < |errs| ==> Rank(errs[i]) < Rank(errs[j])
  {
  }

  /** The list is determined by its members, so no other order or repetition is possible. */
  lemma UnmetRequirementsUnique(p: PasswordPolicy, password: string, errs: seq<Requirement>)
    requires forall q :: q in errs <==> Unmet(p, password, q)
    requires forall i, j :: 0 <= i < j < |errs| ==> Rank(errs[i]) < Rank(errs[j])
    ensures errs == UnmetRequirements(p, password)
  {
    var u := UnmetRequirements(p, password);
    UnmetRequirementsSpec(p, password);
    forall i, j | 0 <= i < |errs| && 0 <= j < |u| && Rank(errs[i]) == Rank(u[j])
      ensures errs[i] == u[j]
    {
      assert errs[i] in errs && u[j] in u;
    }
    SortedByRankUnique(errs, u);
  }

  /** Two rank-sorted lists with the same members and head share their tails' members. */
  lemma SameTailMembers(a: seq<Requirement>, b: seq<Requirement>)
    requires a != [] && b != [] && a[0] == b[0]
    requires forall q :: q in a <==> q in b
    requires forall i, j :: 0 <= i < j < |a| ==> Rank(a[i]) < Rank(a[j])
    requires forall i, j :: 0 <= i < j < |b| ==> Rank(b[i]) < Rank(b[j])
    ensures forall q :: q in a[1..] <==> q in b[1..]
  {
    forall q ensures q in a[1..] <==> q in b[1..] {
      if q in a[1..] {
        var k :| 1 <= k < |a| && a[k] == q;
        assert q in b;
        assert Rank(a[0]) < Rank(q);
        var m :| 0 <= m < |b| && b[m] == q;
        assert m != 0;
        assert b[1..][m - 1] == q;
      }
      if q in b[1..] {
        var k :| 1 <= k < |b| && b[k] == q;
        assert q in a;
        assert Rank(b[0]) < Rank(q);
        var m :| 0 <= m < |a| && a[m] == q;
        assert m != 0;
        assert a[1..][m - 1] == q;
      }
    }
  }

  lemma {:induction false} SortedByRankUnique(a: seq<Requirement>, b: seq<Requirement>)
    requires forall q :: q in a <==> q in b
    requires forall i, j :: 0 <= i < j < |a| ==> Rank(a[i]) < Rank(a[j])
    requires forall i, j :: 0 <= i < j < |b| ==> Rank(b[i]) < Rank(b[j])
    requires forall i, j :: 0 <= i < |a| && 0 <= j < |b| && Rank(a[i]) == Rank(b[j]) ==> a[i] == b[j]
    ensures a == b
  {
    if a != [] {
      assert a[0] in b;
    }
    if b != [] {
      assert b[0] in a;
    }
    if a != [] && b != [] {
      var i :| 0 <= i < |b| && b[i] == a[0];
      var j :| 0 <= j < |a| && a[j] == b[0];
      assert Rank(b[0]) <= Rank(b[i]) == Rank(a[0]);
      assert Rank(a[0]) <= Rank(a[j]) == Rank(b[0]);
      assert a[0] == b[0];
      SameTailMembers(a, b);
      SortedByRankUnique(a[1..], b[1..]);
      assert a == [a[0]] + a[1..] && b == [b[0]] + b[1..];
    }
  }

  function Password(p: PasswordPolicy, value: string): (r: Check<string>)
    ensures !r.Skipped?
    ensures r == Invalid(PasswordEmpty) <==> value == []
    ensures r.Valid? <==> value != [] && forall q :: !Unmet(p, value, q)
    ensures r.Valid? ==> r.value == value
    ensures r.Invalid? && value != [] ==> r.code == WeakPassword(UnmetRequirements(p, value))
  {
    if value == [] then Invalid(PasswordEmpty)
    else
      var errors := UnmetRequirements(p, value);
      UnmetRequirementsSpec(p, value);
      if errors != [] then
        assert Unmet(p, value, errors[0]);
        Invalid(WeakPassword(errors))
      else Valid(value)
  }

  /** `PasswordValidator.__call__`, collecting the errors one test at a time. */
  method ValidatePassword(p: PasswordPolicy, value: string) returns (r: Check<string>)
    ensures r == Password(p, value)
  {
    if value == [] {
      return Invalid(PasswordEmpty);
    }
    var errors: seq<Requirement> := [];
    if |value| < p.minLength {
      errors := errors + [MinLength(p.minLength)];
    }
    if p.requireUpper && !HasUpper(value) {
      errors := errors + [UpperCase];
    }
    if p.requireLower && !HasLower(value) {
      errors := errors + [LowerCase];
    }
    if p.requireDigit && !HasDigit(value) {
      errors := errors + [DigitChar];
    }
    if !HasSpecial(value) {
      errors := errors + [SpecialChar];
    }
    if errors != [] {
      return Invalid(WeakPassword(errors));
    }
    return Valid(value);
  }

  /** Under the default policy a password is accepted iff it meets all five tests. */
  lemma DefaultPolicyAccepts(value: string)
    ensures Password(DefaultPolicy, value).Valid? <==>
      |value| >= 8 && HasUpper(value) && HasLower(value) && HasDigit(value) && HasSpecial(value)
  {
    UnmetRequirementsSpec(DefaultPolicy, value);
    if !Password(DefaultPolicy, value).Valid? && value != [] {
      var errs := UnmetRequirements(DefaultPolicy, value);
      assert errs != [];
      assert Unmet(DefaultPolicy, value, errs[0]);
    }
    if Password(DefaultPolicy, value).Valid? {
      assert !Unmet(DefaultPolicy, value, MinLength(8));
      assert !Unmet(DefaultPolicy, value, UpperCase);
      assert !Unmet(DefaultPolicy, value, LowerCase);
      assert !Unmet(DefaultPolicy, value, DigitChar);
      assert !Unmet(DefaultPolicy, value, SpecialChar);
    }
  }

  // ===== order numbers =====

  /**
   * `NumeroOrdenValidator(model)(value, instance)`: `numeros` maps each row's
   * pk to its order number; `instancePk` is the edited record's pk, or None
   * when there is no instance or it has not been saved.
   */
  function NumeroOrden(numeros: map<int, int>, value: int, instancePk: Option<int>): (r: Check<int>)
    ensures r.Skipped? <==> value == 0
    ensures r == Invalid(DuplicateNumber) <==>
      value != 0 && exists k :: k in numeros && numeros[k] == value && !Excluded(instancePk, k)
    ensures r == Invalid(InvalidNumber) <==>
      value < 0 && forall k :: k in numeros && numeros[k] == value ==> Excluded(instancePk, k)
    ensures value > 0 && (forall k :: k in numeros && numeros[k] == value ==> Excluded(instancePk, k)) ==>
      r == Valid(value)
    ensures r.Valid? ==> r.value == value && value > 0
  {
    if value == 0 then Skipped
    else if exists k :: k in numeros && numeros[k] == value && !Excluded(instancePk, k) then
      Invalid(DuplicateNumber)
    else if value <= 0 then Invalid(InvalidNumber)
    else Valid(value)
  }

  /** `query.exclude(pk=instance.pk)` applies only when `instance and instance.pk`. */
  predicate Excluded(instancePk: Option<int>, k: int) {
    instancePk.Some? && instancePk.value != 0 && k == instancePk.value
  }

  /** Re-saving a record with its own number is not a duplicate; another record's is. */
  lemma NumeroOrdenEditing(numeros: map<int, int>, pk: int, other: int)
    requires pk != 0 && pk in numeros && numeros[pk] > 0
    requires forall k :: k in numeros && k != pk ==> numeros[k] != numeros[pk]
    requires other in numeros && other != pk
    ensures NumeroOrden(numeros, numeros[pk], Some(pk)) == Valid(numeros[pk])
    ensures NumeroOrden(numeros, numeros[pk], None) == Invalid(DuplicateNumber)
    ensures numeros[other] != 0 ==>
      NumeroOrden(numeros, numeros[other], Some(pk)) == Invalid(DuplicateNumber)
  {
    assert numeros[pk] == numeros[pk] && !Excluded(None, pk);
    assert !Excluded(Some(pk), other);
  }
}
