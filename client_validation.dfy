/**
 * The browser-side field check of static/js/validation.js: `validateField`
 * decides one input from its trimmed value and its attributes, and
 * `validateForm` runs it on every input of the form.
 *
 * What JavaScript leaves to the browser is a parameter (`Engine`): compiling
 * and running the `pattern` regular expression, the `parseFloat`
 * comparisons behind `min`/`max`, and `new URL(...)`.  `String.prototype.trim`
 * and `parseInt` are modelled exactly; the e-mail regular expression is the
 * same one the server uses (`Validators.EmailSyntax`).
 */
module ClientValidation {
  import opened Wrappers
  import opened Text
  import opened Sequences
  import Validators

  // ===== String.prototype.trim =====

  /** ECMAScript WhiteSpace and LineTerminator code points. */
  predicate IsJsSpace(c: char) {
    || c == '\t' || c == '\n' || c == '\U{000B}' || c == '\U{000C}' || c == '\r' || c == ' '
    || c == '\U{00A0}' || c == '\U{1680}' || ('\U{2000}' <= c <= '\U{200A}')
    || c == '\U{2028}' || c == '\U{2029}' || c == '\U{202F}' || c == '\U{205F}'
    || c == '\U{3000}' || c == '\U{FEFF}'
  }

  /** Index of the first non-whitespace code point (|s| if there is none). */
  function TrimStart(s: string): (a: nat)
    ensures a <= |s|
    ensures forall i :: 0 <= i < a ==> IsJsSpace(s[i])
    ensures a < |s| ==> !IsJsSpace(s[a])
  {
    if |s| == 0 || !IsJsSpace(s[0]) then 0 else 1 + TrimStart(s[1..])
  }

  /** One past the last non-whitespace code point (0 if there is none). */
  function TrimEnd(s: string): (e: nat)
    ensures e <= |s|
    ensures forall i :: e <= i < |s| ==> IsJsSpace(s[i])
    ensures e > 0 ==> !IsJsSpace(s[e - 1])
  {
    if |s| == 0 || !IsJsSpace(s[|s| - 1]) then |s| else TrimEnd(s[..|s| - 1])
  }

  /** `s.trim()`: the part between the leading and the trailing whitespace. */
  function Trim(s: string): (r: string)
    ensures |r| <= |s|
    ensures r == [] || (!IsJsSpace(r[0]) && !IsJsSpace(r[|r| - 1]))
    ensures TrimStart(s) + |r| <= |s| && r == s[TrimStart(s)..TrimStart(s) + |r|]
    ensures forall i :: 0 <= i < TrimStart(s) ==> IsJsSpace(s[i])
    ensures forall i :: TrimStart(s) + |r| <= i < |s| ==> IsJsSpace(s[i])
  {
    if TrimStart(s) == |s| then []
    else
      assert !IsJsSpace(s[TrimStart(s)]);
      s[TrimStart(s)..TrimEnd(s)]
  }

  /** Trimming twice is trimming once. */
  lemma TrimIdempotent(s: string)
    ensures Trim(Trim(s)) == Trim(s)
  {
    var r := Trim(s);
    if r != [] {
      assert TrimStart(r) == 0;
      assert TrimEnd(r) == |r| by {
        assert !IsJsSpace(r[|r| - 1]);
      }
      assert r[0..|r|] == r;
    }
  }

  /** A value trims to nothing exactly when it is all whitespace. */
  lemma TrimBlank(s: string)
    ensures Trim(s) == [] <==> forall i :: 0 <= i < |s| ==> IsJsSpace(s[i])
  {
    if Trim(s) == [] {
      forall i | 0 <= i < |s| ensures IsJsSpace(s[i]) {
        assert i < TrimStart(s) || TrimStart(s) <= i;
      }
    } else {
      assert !IsJsSpace(s[TrimStart(s)]);
    }
  }

  // ===== parseInt =====

  predicate IsHexDigit(c: char) { IsDigit(c) || 'a' <= c <= 'f' || 'A' <= c <= 'F' }

  function HexDigitValue(c: char): (d: nat)
    requires IsHexDigit(c)
    ensures d < 16
    ensures IsDigit(c) ==> d == DigitValue(c)
  {
    if IsDigit(c) then DigitValue(c)
    else if 'a' <= c <= 'f' then c as int - 'a' as int + 10
    else c as int - 'A' as int + 10
  }

  /** The value of a string of digits in base 10 (`radix` 10) or 16. */
  function DigitsValue(s: string, radix: nat): (v: nat)
    requires radix == 10 || radix == 16
    requires forall i :: 0 <= i < |s| ==> (if radix == 10 then IsDigit(s[i]) else IsHexDigit(s[i]))
  {
    if s == [] then 0
    else
      var last := s[|s| - 1];
      DigitsValue(s[..|s| - 1], radix) * radix + (if radix == 10 then DigitValue(last) else HexDigitValue(last))
  }

  predicate IsRadixDigit(c: char, radix: nat) {
    if radix == 10 then IsDigit(c) else IsHexDigit(c)
  }

  /** Length of the longest prefix of digits of the radix. */
  function DigitRun(s: string, radix: nat): (n: nat)
    ensures n <= |s|
    ensures forall i :: 0 <= i < n ==> IsRadixDigit(s[i], radix)
    ensures n < |s| ==> !IsRadixDigit(s[n], radix)
  {
    if |s| == 0 || !IsRadixDigit(s[0], radix) then 0 else 1 + DigitRun(s[1..], radix)
  }

  /**
   * `parseInt(s)` without a radix, None standing for NaN: leading whitespace
   * is skipped, one sign is read, a `0x`/`0X` prefix selects base 16, and
   * the longest run of digits that follows is read; anything after it is
   * ignored.
   */
  function ParseInt(s: string): (r: Option<int>)
    ensures r.None? <==>
      var t := s[TrimStart(s)..];
      var u := if |t| > 0 && (t[0] == '-' || t[0] == '+') then t[1..] else t;
      if |u| >= 2 && u[0] == '0' && (u[1] == 'x' || u[1] == 'X') then DigitRun(u[2..], 16) == 0
      else DigitRun(u, 10) == 0
    ensures r.Some? && s[TrimStart(s)..][..1] != "-" ==> r.value >= 0
  {
    var t := s[TrimStart(s)..];
    var negative := |t| > 0 && t[0] == '-';
    var u := if |t| > 0 && (t[0] == '-' || t[0] == '+') then t[1..] else t;
    var radix := if |u| >= 2 && u[0] == '0' && (u[1] == 'x' || u[1] == 'X') then 16 else 10;
    var body := if radix == 16 then u[2..] else u;
    var n := DigitRun(body, radix);
    if n == 0 then None
    else
      var v: int := DigitsValue(body[..n], radix);
      assert negative <==> t[..1] == "-" by {
        if |t| > 0 { assert t[..1] == [t[0]]; }
      }
      Some(if negative then -v else v)
  }

  /** Decimal digits read back the number they were written from. */
  lemma {:induction false} DigitsValueNatToString(n: nat)
    ensures DigitsValue(NatToString(n), 10) == n
  {
    var s := NatToString(n);
    if n >= 10 {
      DigitsValueNatToString(n / 10);
      assert s[..|s| - 1] == NatToString(n / 10);
    }
  }

  /** `parseInt` inverts writing a number in decimal. */
  lemma ParseIntNatToString(n: nat)
    ensures ParseInt(NatToString(n)) == Some(n)
  {
    var s := NatToString(n);
    assert !IsJsSpace(s[0]) && TrimStart(s) == 0;
    assert s[0..] == s;
    assert !(|s| >= 2 && s[0] == '0' && (s[1] == 'x' || s[1] == 'X')) by {
      if |s| >= 2 { assert IsDigit(s[1]); }
    }
    DigitRunAll(s);
    assert s[..|s|] == s;
    DigitsValueNatToString(n);
  }

  lemma {:induction false} DigitRunAll(s: string)
    requires AllDigits(s)
    ensures DigitRun(s, 10) == |s|
  {
    if s != [] {
      DigitRunAll(s[1..]);
    }
  }

  /** A `minlength` without digits is NaN, and so is an empty one. */
  lemma ParseIntNaN()
    ensures ParseInt("") == None && ParseInt("abc") == None
  {
    assert TrimStart("abc") == 0 && "abc"[0..] == "abc";
    assert DigitRun("abc", 10) == 0;
  }

  /** Leading whitespace is skipped and whatever follows the digits is ignored. */
  lemma ParseIntLenient()
    ensures ParseInt(" 8") == Some(8) && ParseInt("8px") == Some(8)
  {
    assert TrimStart(" 8") == 1 && " 8"[1..] == "8" && DigitRun("8", 10) == 1 && "8"[..1] == "8";
    assert DigitsValue("8", 10) == 8 by { assert "8"[..0] == ""; }
    assert TrimStart("8px") == 0 && "8px"[0..] == "8px";
    assert DigitRun("8px", 10) == 1 && "8px"[..1] == "8";
  }

  /** A `0x` prefix reads hexadecimal digits. */
  lemma ParseIntHex()
    ensures ParseInt("0x1F") == Some(31)
  {
    var s := "0x1F";
    assert TrimStart(s) == 0 && s[0..] == s;
    assert s[2..] == "1F" && DigitRun("1F", 16) == 2 && "1F"[..2] == "1F";
    assert DigitsValue("1F", 16) == 31 by {
      assert "1F"[..1] == "1";
      assert DigitsValue("1", 16) == 1 by { assert "1"[..0] == ""; }
    }
  }

  /** A minus sign negates. */
  lemma ParseIntNegative()
    ensures ParseInt("-3") == Some(-3)
  {
    var s := "-3";
    assert TrimStart(s) == 0 && s[0..] == s;
    assert s[1..] == "3" && DigitRun("3", 10) == 1 && "3"[..1] == "3";
    assert DigitsValue("3", 10) == 3 by { assert "3"[..0] == ""; }
  }

  // ===== the field =====

  /** An input as `validateField` sees it: its value, its `type` and its attributes. */
  datatype Field = Field(value: string, kind: string, attrs: map<string, string>)

  /** `field.getAttribute(name)`, None standing for `null`. */
  function Attr(f: Field, name: string): (a: Option<string>)
    ensures a.Some? <==> name in f.attrs
  {
    if name in f.attrs then Some(f.attrs[name]) else None
  }

  /** A JavaScript test of an attribute: present and not the empty string. */
  predicate Truthy(a: Option<string>) { a.Some? && a.value != [] }

  /**
   * What the model takes from the browser: whether `new RegExp(p)` compiles,
   * `new RegExp(p).test(v)`, whether a pattern matches a whole string, the comparison
   * `parseFloat(a) < parseFloat(b)` (false when either is NaN), and whether
   * `new URL(s)` succeeds.
   */
  datatype Engine = Engine(
    compiles: string -> bool,
    test: (string, string) -> bool,
    fullMatch: (string, string) -> bool,
    floatLess: (string, string) -> bool,
    isUrl: string -> bool)

  /**
   * What `test` reduces to for a pattern `p` with no anchor, word boundary
   * or lookaround: some piece of the value matches the whole pattern.
   * Patterns that have them (`^[0-9]{8}$`) are left to `test` alone.
   */
  ghost predicate SearchesPieces(e: Engine, p: string) {
    forall v :: e.test(p, v) <==> exists i, j :: 0 <= i <= j <= |v| && e.fullMatch(p, v[i..j])
  }

  datatype Rule = Required | Pattern | MinLength | MaxLength | Min | Max | EmailFormat | UrlFormat

  /** The order of the checks. */
  function Rank(q: Rule): nat {
    match q
    case Required => 0
    case Pattern => 1
    case MinLength => 2
    case MaxLength => 3
    case Min => 4
    case Max => 5
    case EmailFormat => 6
    case UrlFormat => 7
  }

  /** The outcome of `validateField`: true, false after a failed rule, or a `SyntaxError` thrown by `new RegExp`. */
  datatype Verdict = Passed | Failed(rule: Rule) | Threw

  predicate IsRequired(f: Field) { "required" in f.attrs }

  predicate Blank(f: Field) { Trim(f.value) == [] }

  predicate PatternThrows(e: Engine, f: Field) {
    Truthy(Attr(f, "pattern")) && !e.compiles(Attr(f, "pattern").value)
  }

  /** The test of rule `q` in `validateField`, applied to the trimmed value. */
  predicate Rejects(e: Engine, f: Field, q: Rule) {
    var v := Trim(f.value);
    match q
    case Required => IsRequired(f) && v == []
    case Pattern =>
      Truthy(Attr(f, "pattern")) && e.compiles(Attr(f, "pattern").value) &&
      !e.test(Attr(f, "pattern").value, v)
    case MinLength =>
      Truthy(Attr(f, "minlength")) &&
      var n := ParseInt(Attr(f, "minlength").value); n.Some? && |v| < n.value
    case MaxLength =>
      Truthy(Attr(f, "maxlength")) &&
      var n := ParseInt(Attr(f, "maxlength").value); n.Some? && |v| > n.value
    case Min => Truthy(Attr(f, "min")) && e.floatLess(v, Attr(f, "min").value)
    case Max => Truthy(Attr(f, "max")) && e.floatLess(Attr(f, "max").value, v)
    case EmailFormat => f.kind == "email" && !Validators.EmailSyntax(v)
    case UrlFormat => f.kind == "url" && !e.isUrl(v)
  }

  /**
   * Whether rule `q`, taken on its own, rejects the field: every rule but
   * `required` only looks at a non-blank value.
   */
  predicate Violates(e: Engine, f: Field, q: Rule) {
    (q == Required || !Blank(f)) && Rejects(e, f, q)
  }

  /**
   * `validateField`: the checks in order, the first failure deciding; an
   * optional field left blank passes whatever its other attributes say.
   */
  function ValidateField(e: Engine, f: Field): Verdict {
    if Blank(f) then
      if IsRequired(f) then Failed(Required) else Passed
    else if PatternThrows(e, f) then Threw
    else if Rejects(e, f, Pattern) then Failed(Pattern)
    else if Rejects(e, f, MinLength) then Failed(MinLength)
    else if Rejects(e, f, MaxLength) then Failed(MaxLength)
    else if Rejects(e, f, Min) then Failed(Min)
    else if Rejects(e, f, Max) then Failed(Max)
    else if Rejects(e, f, EmailFormat) then Failed(EmailFormat)
    else if Rejects(e, f, UrlFormat) then Failed(UrlFormat)
    else Passed
  }

  /**
   * What `validateField` decides: it throws exactly when the value is not
   * blank and the pattern does not compile; it fails on the first rule, in
   * check order, that rejects the field; and it passes when the field is
   * blank and optional, or when nothing rejects it.
   */
  lemma ValidateFieldFirstFailure(e: Engine, f: Field)
    ensures ValidateField(e, f) == Threw <==> !Blank(f) && PatternThrows(e, f)
    ensures ValidateField(e, f) == Passed <==>
      (Blank(f) && !IsRequired(f)) || (!Blank(f) && !PatternThrows(e, f) && forall q :: !Violates(e, f, q))
    ensures ValidateField(e, f).Failed? ==>
      var q := ValidateField(e, f).rule;
      Violates(e, f, q) && forall p :: Rank(p) < Rank(q) ==> !Violates(e, f, p)
    ensures ValidateField(e, f).Failed? && ValidateField(e, f).rule != Required ==> !PatternThrows(e, f)
  {
    var r := ValidateField(e, f);
    if r.Failed? {
      assert Violates(e, f, r.rule);
    }
  }

  /** Every check sees the trimmed value: trimming the input first changes nothing. */
  lemma ValidateFieldSeesTrimmed(e: Engine, f: Field)
    ensures ValidateField(e, f.(value := Trim(f.value))) == ValidateField(e, f)
  {
    var g := f.(value := Trim(f.value));
    TrimIdempotent(f.value);
    assert Trim(g.value) == Trim(f.value) && Attr(g, "pattern") == Attr(f, "pattern");
    forall q ensures Rejects(e, g, q) == Rejects(e, f, q) {
      assert forall a :: Attr(g, a) == Attr(f, a);
    }
  }

  /** A required field holding only whitespace fails as required. */
  lemma BlankRequiredFails(e: Engine, f: Field)
    requires IsRequired(f) && forall i :: 0 <= i < |f.value| ==> IsJsSpace(f.value[i])
    ensures ValidateField(e, f) == Failed(Required)
  {
    TrimBlank(f.value);
  }

  /** An optional field holding only whitespace passes. */
  lemma BlankOptionalPasses(e: Engine, f: Field)
    requires !IsRequired(f) && forall i :: 0 <= i < |f.value| ==> IsJsSpace(f.value[i])
    ensures ValidateField(e, f) == Passed
  {
    TrimBlank(f.value);
  }

  /**
   * For a pattern without anchors or lookarounds, the pattern is satisfied
   * as soon as one piece of the trimmed value matches it.
   */
  lemma PatternUnanchored(e: Engine, f: Field, i: nat, j: nat)
    requires Truthy(Attr(f, "pattern")) && SearchesPieces(e, Attr(f, "pattern").value)
    requires i <= j <= |Trim(f.value)| && e.fullMatch(Attr(f, "pattern").value, Trim(f.value)[i..j])
    ensures !Violates(e, f, Pattern)
  {
  }

  /**
   * Whatever the pattern, a compiled pattern whose `test` fails on the
   * trimmed, non-blank value fails the field on that rule.
   */
  lemma PatternTestDecides(e: Engine, f: Field)
    requires !Blank(f) && Truthy(Attr(f, "pattern")) && e.compiles(Attr(f, "pattern").value)
    requires !e.test(Attr(f, "pattern").value, Trim(f.value))
    ensures ValidateField(e, f) == Failed(Pattern)
  {
  }

  /** Whitespace on both sides goes. */
  lemma TrimExample()
    ensures Trim("  ab  ") == "ab"
  {
    var s := "  ab  ";
    assert TrimStart(s) == 2 by {
      assert s[1..][1..] == "ab  ";
    }
    assert TrimEnd(s) == 4 by {
      assert s[..5][..4] == "  ab";
    }
  }

  /** `minlength` counts the trimmed value: "  ab  " is too short for a minimum of 3. */
  lemma MinLengthCountsTrimmed(e: Engine)
    ensures ValidateField(e, Field("  ab  ", "text", map["minlength" := "3"])) == Failed(MinLength)
  {
    var f := Field("  ab  ", "text", map["minlength" := "3"]);
    TrimExample();
    assert !Blank(f);
    assert "pattern" !in f.attrs by { assert "pattern"[0] != "minlength"[0]; }
    assert ParseInt("3") == Some(3) by {
      assert NatToString(3) == "3";
      ParseIntNatToString(3);
    }
  }

  // ===== validateForm =====

  predicate AllPassed(vs: seq<Verdict>) {
    forall i :: 0 <= i < |vs| ==> vs[i] == Passed
  }

  lemma AllPassedSnoc(vs: seq<Verdict>, v: Verdict)
    ensures AllPassed(vs + [v]) <==> AllPassed(vs) && v == Passed
  {
    assert (vs + [v])[|vs|] == v;
    if AllPassed(vs) && v == Passed {
      forall i | 0 <= i < |vs + [v]| ensures (vs + [v])[i] == Passed {
        if i < |vs| { assert (vs + [v])[i] == vs[i]; }
      }
    }
    if AllPassed(vs + [v]) {
      forall i | 0 <= i < |vs| ensures vs[i] == Passed {
        assert (vs + [v])[i] == vs[i];
      }
    }
  }

  /** The per-field check `validateForm` applies: `validateField` in the engine `e`. */
  function FieldCheck(e: Engine): (check: Field -> Verdict)
    ensures forall f :: check(f) == ValidateField(e, f)
  {
    (f: Field) => ValidateField(e, f)
  }

  /** The verdict of every field, in form order. */
  function Verdicts(e: Engine, fields: seq<Field>): seq<Verdict> {
    MapSeq(fields, FieldCheck(e))
  }

  /**
   * `validateForm`: every field is checked, also after a failure, and the
   * form passes when all of them pass; `marks` are the verdicts in field
   * order, which decide each field's `is-valid`/`is-invalid` class. A
   * `SyntaxError` from a field's pattern escapes the loop (None) right
   * after that field.
   */
  method ValidateForm(e: Engine, fields: seq<Field>) returns (ok: Option<bool>, marks: seq<Verdict>)
    ensures |marks| <= |fields| && marks == Verdicts(e, fields)[..|marks|]
    ensures ok.Some? <==> Threw !in Verdicts(e, fields)
    ensures ok.Some? ==> marks == Verdicts(e, fields)
    ensures ok.Some? ==> (ok.value <==> AllPassed(marks))
    ensures ok.None? ==> |marks| > 0 && marks[|marks| - 1] == Threw && Threw !in marks[..|marks| - 1]
  {
    ok, marks := CheckFields(FieldCheck(e), fields);
  }

  /** The loop of `validateForm`, whatever the check applied to each field. */
  method CheckFields(check: Field -> Verdict, fields: seq<Field>) returns (ok: Option<bool>, marks: seq<Verdict>)
    ensures |marks| <= |fields| && marks == MapSeq(fields, check)[..|marks|]
    ensures ok.Some? <==> Threw !in MapSeq(fields, check)
    ensures ok.Some? ==> marks == MapSeq(fields, check)
    ensures ok.Some? ==> (ok.value <==> AllPassed(marks))
    ensures ok.None? ==> |marks| > 0 && marks[|marks| - 1] == Threw && Threw !in marks[..|marks| - 1]
  {
    ghost var vs := MapSeq(fields, check);
    var isValid := true;
    marks := [];
    var i := 0;
    while i < |fields|
      invariant 0 <= i <= |fields| && marks == vs[..i]
      invariant Threw !in marks
      invariant isValid == AllPassed(marks)
    {
      var verdict := check(fields[i]);
      assert verdict == vs[i];
      PrefixSnoc(vs, i);
      AllPassedSnoc(marks, verdict);
      marks := marks + [verdict];
      if verdict == Threw {
        assert marks[..|marks| - 1] == vs[..i] && Threw in vs;
        return None, marks;
      }
      if verdict != Passed {
        isValid := false;
      }
      i := i + 1;
    }
    assert vs[..|fields|] == vs;
    assert Threw !in vs;
    return Some(isValid), marks;
  }
}
