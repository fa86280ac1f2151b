/**
 * Character classes and string operations shared by the validators, the
 * entity rules and the list filters.
 *
 * Letters are the ASCII letters and the accented letters the validators'
 * character classes list (á é í ó ú ñ and their capitals); digits are ASCII
 * digits; whitespace is the ASCII part of Python's `str.isspace`.
 */
module Text {

  // ----- digits -----

  predicate IsDigit(c: char) { '0' <= c <= '9' }

  function DigitValue(c: char): (d: nat)
    requires IsDigit(c)
    ensures d <= 9
  {
    c as int - '0' as int
  }

  predicate AllDigits(s: string) { forall i :: 0 <= i < |s| ==> IsDigit(s[i]) }

  // ----- letters and case -----

  predicate IsAsciiLetter(c: char) { 'A' <= c <= 'Z' || 'a' <= c <= 'z' }

  predicate IsUpperLetter(c: char) {
    'A' <= c <= 'Z' || c == 'Á' || c == 'É' || c == 'Í' || c == 'Ó' || c == 'Ú' || c == 'Ñ'
  }

  predicate IsLowerLetter(c: char) {
    'a' <= c <= 'z' || c == 'á' || c == 'é' || c == 'í' || c == 'ó' || c == 'ú' || c == 'ñ'
  }

  /** A cased character in the sense of Python's `str.title`. */
  predicate IsLetter(c: char) { IsUpperLetter(c) || IsLowerLetter(c) }

  /** The class `[A-Za-záéíóúÁÉÍÓÚñÑ\s]` of the name patterns. */
  predicate IsNameChar(c: char) { IsLetter(c) || IsSpace(c) }

  predicate AllNameChars(s: string) { forall i :: 0 <= i < |s| ==> IsNameChar(s[i]) }

  /** Python whitespace (`str.isspace`, regex `\s`), restricted to ASCII. */
  predicate IsSpace(c: char) {
    // space, \t \n \v \f \r, and the separators \x1c to \x1f
    c == ' ' || ('\t' <= c <= '\r') || ('\U{001C}' <= c <= '\U{001F}')
  }

  // Every lower-case letter of the class sits 32 code points above its capital.
  function ToUpper(c: char): (u: char)
    ensures IsLowerLetter(c) ==> IsUpperLetter(u) && ToLower(u) == c
    ensures !IsLowerLetter(c) ==> u == c
    ensures IsLetter(u) <==> IsLetter(c)
    ensures IsSpace(u) <==> IsSpace(c)
  {
    if IsLowerLetter(c) then (c as int - 32) as char else c
  }

  function ToLower(c: char): (l: char)
    ensures IsUpperLetter(c) ==> IsLowerLetter(l)
    ensures !IsUpperLetter(c) ==> l == c
    ensures IsLetter(l) <==> IsLetter(c)
    ensures IsSpace(l) <==> IsSpace(c)
  {
    if IsUpperLetter(c) then (c as int + 32) as char else c
  }

  lemma CaseRoundTrips(c: char)
    ensures ToLower(ToUpper(c)) == ToLower(c)
    ensures ToUpper(ToLower(c)) == ToUpper(c)
    ensures ToLower(ToLower(c)) == ToLower(c)
    ensures !(IsUpperLetter(c) && IsLowerLetter(c))
  {
  }

  /** Python's `str.lower`, on the modelled letters. */
  function LowerStr(s: string): (r: string)
    ensures |r| == |s|
    ensures forall i {:trigger r[i]} :: 0 <= i < |s| ==> r[i] == ToLower(s[i])
  {
    seq(|s|, i requires 0 <= i < |s| => ToLower(s[i]))
  }

  /**
   * Title case: every letter is upper case exactly when it does not follow a
   * letter (the first letter of each word).
   */
  ghost predicate IsTitled(s: string) {
    forall i :: 0 <= i < |s| ==> WordCaseAt(s, i)
  }

  ghost predicate WordCaseAt(s: string, i: nat)
    requires i < |s|
  {
    IsLetter(s[i]) ==> (IsUpperLetter(s[i]) <==> (i == 0 || !IsLetter(s[i - 1])))
  }

  /** The case `str.title` gives one character, after a letter or not. */
  function TitleChar(afterLetter: bool, c: char): (d: char)
    ensures ToLower(d) == ToLower(c)
    ensures IsLetter(d) <==> IsLetter(c)
    ensures IsSpace(d) <==> IsSpace(c)
    ensures IsLetter(c) ==> (IsUpperLetter(d) <==> !afterLetter)
  {
    CaseRoundTrips(c);
    CaseRoundTrips(ToLower(c));
    if afterLetter then ToLower(c) else ToUpper(c)
  }

  /** A character is fixed by its lower-case form and, for a letter, by whether it is upper case. */
  lemma TitleCharUnique(afterLetter: bool, c: char, d: char)
    requires ToLower(d) == ToLower(c)
    requires IsLetter(d) ==> (IsUpperLetter(d) <==> !afterLetter)
    ensures d == TitleChar(afterLetter, c)
  {
    CaseRoundTrips(c);
    CaseRoundTrips(d);
  }

  /** Whether position `i` follows a letter. */
  predicate AfterLetter(s: string, i: nat)
    requires i < |s|
  {
    i > 0 && IsLetter(s[i - 1])
  }

  /** Python's `str.title`: the title-cased string with the same lower-case form. */
  function Title(s: string): (t: string)
    ensures |t| == |s|
    ensures IsTitled(t)
    ensures LowerStr(t) == LowerStr(s)
    ensures forall i {:trigger t[i]} :: 0 <= i < |s| ==> (IsLetter(t[i]) <==> IsLetter(s[i]))
  {
    var t := seq(|s|, i requires 0 <= i < |s| => TitleChar(AfterLetter(s, i), s[i]));
    TitleCharsTitled(s, t);
    TitleCharsLower(s, t);
    t
  }

  /** Per-character title case gives a titled string with the same letters. */
  lemma TitleCharsTitled(s: string, t: string)
    requires |t| == |s| && forall i :: 0 <= i < |s| ==> t[i] == TitleChar(AfterLetter(s, i), s[i])
    ensures IsTitled(t)
    ensures forall i {:trigger t[i]} :: 0 <= i < |s| ==> (IsLetter(t[i]) <==> IsLetter(s[i]))
  {
    forall i | 0 <= i < |s| ensures IsLetter(t[i]) <==> IsLetter(s[i]) {
      assert t[i] == TitleChar(AfterLetter(s, i), s[i]);
    }
    forall i | 0 <= i < |s| ensures WordCaseAt(t, i) {
      assert t[i] == TitleChar(AfterLetter(s, i), s[i]);
    }
  }

  /** Per-character title case keeps the lower-case form. */
  lemma TitleCharsLower(s: string, t: string)
    requires |t| == |s| && forall i :: 0 <= i < |s| ==> t[i] == TitleChar(AfterLetter(s, i), s[i])
    ensures LowerStr(t) == LowerStr(s)
  {
    forall i | 0 <= i < |s| ensures LowerStr(t)[i] == LowerStr(s)[i] {
      assert t[i] == TitleChar(AfterLetter(s, i), s[i]);
    }
  }

  /** Title case changes letters only: whitespace stays where it was. */
  lemma TitleKeepsSpaces(s: string)
    ensures forall i {:trigger Title(s)[i]} :: 0 <= i < |s| ==> (IsSpace(Title(s)[i]) <==> IsSpace(s[i]))
  {
    var t := Title(s);
    forall i | 0 <= i < |s| ensures IsSpace(t[i]) <==> IsSpace(s[i]) {
      assert ToLower(t[i]) == LowerStr(t)[i] == LowerStr(s)[i] == ToLower(s[i]);
    }
  }

  /** Title case is determined by the lower-case form: Title is the only titled string with it. */
  lemma {:induction false} TitleUnique(s: string, t: string)
    requires |s| == |t| && LowerStr(s) == LowerStr(t) && IsTitled(t)
    ensures t == Title(s)
  {
    var u := Title(s);
    forall i | 0 <= i < |s| ensures t[i] == u[i] {
      assert ToLower(s[i]) == LowerStr(s)[i] == LowerStr(t)[i] == ToLower(t[i]);
      if i > 0 {
        assert ToLower(s[i - 1]) == LowerStr(s)[i - 1] == LowerStr(t)[i - 1] == ToLower(t[i - 1]);
      }
      assert i > 0 ==> (IsLetter(s[i - 1]) <==> IsLetter(t[i - 1]));
      if IsLetter(t[i]) { TitledAt(t, i); }
      TitleCharUnique(i > 0 && IsLetter(s[i - 1]), s[i], t[i]);
    }
  }

  lemma TitleIdempotent(s: string)
    ensures Title(Title(s)) == Title(s)
  {
    TitleUnique(Title(s), Title(s));
  }

  lemma TitledAt(t: string, j: nat)
    requires IsTitled(t) && j < |t| && IsLetter(t[j])
    ensures IsUpperLetter(t[j]) <==> (j == 0 || !IsLetter(t[j - 1]))
  {
    assert WordCaseAt(t, j);
  }

  /** A slice of a titled string that starts at a word boundary is titled. */
  lemma TitledSlice(t: string, a: nat, b: nat)
    requires IsTitled(t) && a <= b <= |t|
    requires a == 0 || !IsLetter(t[a - 1])
    ensures IsTitled(t[a..b])
  {
    var u := t[a..b];
    forall i | 0 <= i < |u| ensures WordCaseAt(u, i) {
      assert u[i] == t[a + i];
      if IsLetter(t[a + i]) { TitledAt(t, a + i); }
      if i > 0 { assert u[i - 1] == t[a + i - 1]; }
    }
  }

  // ----- strip -----

  /** Index of the first non-whitespace character (|s| if there is none). */
  function StripStart(s: string): (a: nat)
    ensures a <= |s|
    ensures forall i :: 0 <= i < a ==> IsSpace(s[i])
    ensures a < |s| ==> !IsSpace(s[a])
  {
    if |s| == 0 || !IsSpace(s[0]) then 0 else 1 + StripStart(s[1..])
  }

  /** One past the last non-whitespace character (0 if there is none). */
  function StripEnd(s: string): (e: nat)
    ensures e <= |s|
    ensures forall i :: e <= i < |s| ==> IsSpace(s[i])
    ensures e > 0 ==> !IsSpace(s[e - 1])
  {
    if |s| == 0 || !IsSpace(s[|s| - 1]) then |s| else StripEnd(s[..|s| - 1])
  }

  lemma StripBounds(s: string)
    ensures StripStart(s) < |s| ==> StripStart(s) < StripEnd(s)
    ensures StripStart(s) == |s| ==> StripEnd(s) == 0
  {
  }

  /** Python's `str.strip()`. */
  function Strip(s: string): (r: string)
    ensures |r| <= |s|
    ensures r == [] || (!IsSpace(r[0]) && !IsSpace(r[|r| - 1]))
    ensures StripStart(s) + |r| <= |s|
    ensures r == s[StripStart(s)..StripStart(s) + |r|]
    ensures forall i :: 0 <= i < StripStart(s) ==> IsSpace(s[i])
    ensures forall i :: StripStart(s) + |r| <= i < |s| ==> IsSpace(s[i])
  {
    StripBounds(s);
    if StripStart(s) == |s| then [] else s[StripStart(s)..StripEnd(s)]
  }

  /** A string without surrounding whitespace is its own strip. */
  lemma StripTrimmed(s: string)
    requires s == [] || (!IsSpace(s[0]) && !IsSpace(s[|s| - 1]))
    ensures Strip(s) == s
  {
  }

  /** Strip depends only on where the whitespace is. */
  lemma {:induction false} StripStartSameSpaces(s: string, t: string)
    requires |s| == |t|
    requires forall i :: 0 <= i < |s| ==> (IsSpace(s[i]) <==> IsSpace(t[i]))
    ensures StripStart(s) == StripStart(t)
  {
    if |s| > 0 && IsSpace(s[0]) {
      StripStartSameSpaces(s[1..], t[1..]);
    }
  }

  lemma {:induction false} StripEndSameSpaces(s: string, t: string)
    requires |s| == |t|
    requires forall i :: 0 <= i < |s| ==> (IsSpace(s[i]) <==> IsSpace(t[i]))
    ensures StripEnd(s) == StripEnd(t)
  {
    if |s| > 0 && IsSpace(s[|s| - 1]) {
      StripEndSameSpaces(s[..|s| - 1], t[..|t| - 1]);
    }
  }

  lemma StripSameSpaces(s: string, t: string)
    requires |s| == |t|
    requires forall i :: 0 <= i < |s| ==> (IsSpace(s[i]) <==> IsSpace(t[i]))
    ensures StripStart(s) == StripStart(t)
    ensures |Strip(s)| == |Strip(t)|
  {
    StripStartSameSpaces(s, t);
    StripEndSameSpaces(s, t);
  }

  /** Two strings with whitespace at the same places are stripped at the same indices. */
  lemma StripSameSlice(s: string, t: string)
    requires |s| == |t|
    requires forall i :: 0 <= i < |s| ==> (IsSpace(s[i]) <==> IsSpace(t[i]))
    ensures StripStart(s) + |Strip(s)| <= |t|
    ensures Strip(t) == t[StripStart(s)..StripStart(s) + |Strip(s)|]
    ensures StripStart(s) > 0 ==> IsSpace(t[StripStart(s) - 1])
  {
    StripSameSpaces(s, t);
  }

  lemma SpaceIsNoLetter(c: char)
    requires IsSpace(c)
    ensures !IsLetter(c)
  {
  }

  /** Stripping a titled string keeps it titled: the cut falls on whitespace. */
  lemma StripKeepsTitled(s: string, t: string)
    requires |s| == |t| && IsTitled(t)
    requires forall i :: 0 <= i < |s| ==> (IsSpace(s[i]) <==> IsSpace(t[i]))
    ensures IsTitled(Strip(t))
  {
    StripSameSlice(s, t);
    var a := StripStart(s);
    var b := a + |Strip(s)|;
    if a > 0 {
      SpaceIsNoLetter(t[a - 1]);
    }
    var u := t[a..b];
    TitledSlice(t, a, b);
    assert IsTitled(u);
    assert Strip(t) == u;
  }

  /** Strings with the same lower-case form and whitespace strip to the same lower-case form. */
  lemma StripKeepsLower(s: string, t: string)
    requires |s| == |t| && LowerStr(t) == LowerStr(s)
    requires forall i :: 0 <= i < |s| ==> (IsSpace(s[i]) <==> IsSpace(t[i]))
    ensures |Strip(t)| == |Strip(s)|
    ensures LowerStr(Strip(t)) == LowerStr(Strip(s))
  {
    StripSameSlice(s, t);
    var a := StripStart(s);
    var b := a + |Strip(s)|;
    assert Strip(s) == s[a..b];
    SliceLowerAgrees(s, t, a, b);
  }

  /** `s.title().strip()`: the stripped string, title-cased; stripping and title case commute. */
  lemma StripTitle(s: string)
    ensures |Strip(Title(s))| == |Strip(s)|
    ensures IsTitled(Strip(Title(s)))
    ensures LowerStr(Strip(Title(s))) == LowerStr(Strip(s))
  {
    TitleKeepsSpaces(s);
    StripKeepsTitled(s, Title(s));
    StripKeepsLower(s, Title(s));
  }

  /** Strings with the same lower-case form have slices with the same lower-case form. */
  lemma SliceLowerAgrees(s: string, t: string, a: nat, b: nat)
    requires |s| == |t| && a <= b <= |s| && LowerStr(s) == LowerStr(t)
    ensures LowerStr(t[a..b]) == LowerStr(s[a..b])
  {
    var n := t[a..b];
    var m := s[a..b];
    forall i | 0 <= i < b - a ensures LowerStr(n)[i] == LowerStr(m)[i] {
      assert n[i] == t[a + i] && m[i] == s[a + i];
      assert LowerStr(t)[a + i] == LowerStr(s)[a + i];
    }
  }

  /** A slice of a string of name characters holds only name characters. */
  lemma StripKeepsNameChars(s: string)
    requires AllNameChars(s)
    ensures AllNameChars(Strip(s))
  {
    var a := StripStart(s);
    var m := Strip(s);
    assert m == s[a..a + |m|];
    forall i | 0 <= i < |m| ensures IsNameChar(m[i]) {
      assert m[i] == s[a + i];
    }
  }

  /** Lower-casing keeps letters letters and whitespace whitespace. */
  lemma SameLowerSameClass(s: string, t: string)
    requires |s| == |t| && LowerStr(s) == LowerStr(t)
    ensures AllNameChars(s) ==> AllNameChars(t)
  {
    if AllNameChars(s) {
      forall i | 0 <= i < |t| ensures IsNameChar(t[i]) {
        assert LowerStr(s)[i] == LowerStr(t)[i];
        assert IsNameChar(s[i]);
      }
    }
  }

  // ----- searching and joining -----

  predicate EndsWith(s: string, suffix: string) {
    |suffix| <= |s| && s[|s| - |suffix|..] == suffix
  }

  predicate StartsWith(s: string, prefix: string) {
    |prefix| <= |s| && s[..|prefix|] == prefix
  }

  predicate IsSubstring(needle: string, hay: string) {
    exists i :: 0 <= i <= |hay| && StartsWith(hay[i..], needle)
  }

  /** Case-insensitive containment, the ORM's `icontains` lookup. */
  predicate IContains(hay: string, needle: string) {
    IsSubstring(LowerStr(needle), LowerStr(hay))
  }

  /** Python's `sep.join(parts)`. */
  function Join(sep: string, parts: seq<string>): (r: string)
    ensures parts == [] ==> r == []
    ensures |parts| == 1 ==> r == parts[0]
  {
    if parts == [] then []
    else if |parts| == 1 then parts[0]
    else parts[0] + sep + Join(sep, parts[1..])
  }

  /** Joining non-empty parts gives the empty string only for no parts. */
  lemma {:induction false} JoinEmpty(sep: string, parts: seq<string>)
    requires forall i :: 0 <= i < |parts| ==> parts[i] != []
    ensures Join(sep, parts) == [] <==> parts == []
  {
    if |parts| > 1 {
      assert |Join(sep, parts)| >= |parts[0]|;
    }
  }

  // ----- ordering -----

  /** Lexicographic order of code points. */
  predicate LexLe(a: string, b: string) {
    |a| == 0 || (|b| > 0 && (a[0] < b[0] || (a[0] == b[0] && LexLe(a[1..], b[1..]))))
  }

  lemma LexLeTotal(a: string, b: string)
    ensures LexLe(a, b) || LexLe(b, a)
  {
  }

  lemma LexLeTransitive(a: string, b: string, c: string)
    requires LexLe(a, b) && LexLe(b, c)
    ensures LexLe(a, c)
  {
  }

  lemma LexLeAntisymmetric(a: string, b: string)
    requires LexLe(a, b) && LexLe(b, a)
    ensures a == b
  {
  }

  // ----- numbers -----

  function NatToString(n: nat): (s: string)
    ensures |s| > 0 && AllDigits(s)
  {
    if n < 10 then [('0' as int + n) as char]
    else NatToString(n / 10) + [('0' as int + n % 10) as char]
  }

  /** Python's `str(n)` for an integer. */
  function IntToString(n: int): string {
    if n < 0 then "-" + NatToString(-n) else NatToString(n)
  }
}
