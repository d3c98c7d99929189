/**
 * The Python string operations the core relies on: `isspace`/`strip`, `lower`
 * (ASCII letters only), `in` on strings, `replace`, `split('\n')[0]`, `str(int)`
 * and `int(str)` (ASCII digits only).
 */
module Text {
  import opened Values

  /** Python's `str.isspace` on one code point. */
  predicate IsSpace(c: char) {
    c == ' ' || ('\t' <= c <= '\r') || ('\U{1C}' <= c <= '\U{1F}')
    || c == '\U{85}' || c == '\U{A0}' || c == '\U{1680}'
    || ('\U{2000}' <= c <= '\U{200A}') || c == '\U{2028}' || c == '\U{2029}'
    || c == '\U{202F}' || c == '\U{205F}' || c == '\U{3000}'
  }

  /** `s.lstrip()`. */
  function StripLeft(s: string): string
    decreases |s|
  {
    if s != [] && IsSpace(s[0]) then StripLeft(s[1..]) else s
  }

  /** `s.rstrip()`. */
  function StripRight(s: string): string
    decreases |s|
  {
    if s != [] && IsSpace(s[|s| - 1]) then StripRight(s[..|s| - 1]) else s
  }

  /** `s.strip()`. */
  function Strip(s: string): string {
    StripRight(StripLeft(s))
  }

  /** `lstrip` drops exactly the leading whitespace: a suffix remains that does not start with a space. */
  lemma {:induction false} StripLeftFacts(s: string)
    ensures |StripLeft(s)| <= |s| && StripLeft(s) == s[|s| - |StripLeft(s)|..]
    ensures StripLeft(s) != [] ==> !IsSpace(StripLeft(s)[0])
    ensures forall i :: 0 <= i < |s| - |StripLeft(s)| ==> IsSpace(s[i])
    decreases |s|
  {
    if s != [] && IsSpace(s[0]) {
      StripLeftFacts(s[1..]);
      forall i | 0 < i < |s| - |StripLeft(s)|
        ensures IsSpace(s[i])
      {
        assert s[i] == s[1..][i - 1];
      }
    }
  }

  /** `rstrip` drops exactly the trailing whitespace: a prefix remains that does not end with a space. */
  lemma {:induction false} StripRightFacts(s: string)
    ensures |StripRight(s)| <= |s| && StripRight(s) == s[..|StripRight(s)|]
    ensures StripRight(s) != [] ==> !IsSpace(StripRight(s)[|StripRight(s)| - 1])
    ensures forall i :: |StripRight(s)| <= i < |s| ==> IsSpace(s[i])
    decreases |s|
  {
    if s != [] && IsSpace(s[|s| - 1]) {
      StripRightFacts(s[..|s| - 1]);
    }
  }

  /**
   * `strip` leaves the slice of its input between a run of leading and a run
   * of trailing whitespace; the slice neither starts nor ends with whitespace,
   * and it is empty exactly when the input is blank.
   */
  lemma StripFacts(s: string)
    ensures var i := |s| - |StripLeft(s)|;
      0 <= i && i + |Strip(s)| <= |s| && Strip(s) == s[i..i + |Strip(s)|]
      && (forall k :: 0 <= k < i ==> IsSpace(s[k]))
      && (forall k :: i + |Strip(s)| <= k < |s| ==> IsSpace(s[k]))
    ensures Strip(s) != [] ==> !IsSpace(Strip(s)[0]) && !IsSpace(Strip(s)[|Strip(s)| - 1])
    ensures forall c :: c in Strip(s) ==> c in s
    ensures Strip(s) == [] <==> forall i :: 0 <= i < |s| ==> IsSpace(s[i])
  {
    var l := StripLeft(s);
    var r := StripRight(l);
    StripLeftFacts(s);
    StripRightFacts(l);
    StripParts(s, l, r);
    var i := |s| - |l|;
    assert r == s[i..i + |r|];
    forall k | i + |r| <= k < |s|
      ensures IsSpace(s[k])
    {
      assert s[k] == l[k - i];
    }
    if r != [] {
      assert r[0] == l[0];
    }
  }

  lemma StripParts(s: string, l: string, r: string)
    requires l == StripLeft(s) && r == StripRight(l)
    requires |l| <= |s| && l == s[|s| - |l|..]
    requires forall i :: 0 <= i < |s| - |l| ==> IsSpace(s[i])
    requires l != [] ==> !IsSpace(l[0])
    requires |r| <= |l| && r == l[..|r|]
    requires forall i :: |r| <= i < |l| ==> IsSpace(l[i])
    ensures forall c :: c in r ==> c in s
    ensures r == [] <==> forall i :: 0 <= i < |s| ==> IsSpace(s[i])
  {
    StripKeepsChars(s, l, r);
    if r == [] {
      assert l == [];
    } else {
      assert r[0] == l[0] == s[|s| - |l|];
    }
  }

  lemma StripKeepsChars(s: string, l: string, r: string)
    requires |l| <= |s| && l == s[|s| - |l|..]
    requires |r| <= |l| && r == l[..|r|]
    ensures forall c :: c in r ==> c in s
  {
    forall c | c in r
      ensures c in s
    {
      var i :| 0 <= i < |r| && r[i] == c;
      assert l[i] == c;
      assert s[|s| - |l| + i] == c;
    }
  }

  predicate IsPrefix(p: string, s: string) {
    |p| <= |s| && s[..|p|] == p
  }

  /** Python's `needle in hay`. */
  predicate Contains(hay: string, needle: string)
    decreases |hay|
  {
    IsPrefix(needle, hay) || (hay != [] && Contains(hay[1..], needle))
  }

  /** `s.replace(pat, rep)`: every non-overlapping occurrence of `pat`, scanning left to right. */
  function Replace(s: string, pat: string, rep: string): string
    requires pat != []
    decreases |s|
  {
    if s == [] then []
    else if IsPrefix(pat, s) then rep + Replace(s[|pat|..], pat, rep)
    else [s[0]] + Replace(s[1..], pat, rep)
  }

  /** `s.split('\n')[0]`: everything before the first line break. */
  function FirstLine(s: string): (r: string)
    ensures '\n' !in r && IsPrefix(r, s)
    ensures |r| < |s| ==> s[|r|] == '\n'
  {
    if s == [] || s[0] == '\n' then [] else [s[0]] + FirstLine(s[1..])
  }

  function LowerChar(c: char): char {
    if 'A' <= c <= 'Z' then (c as int + 32) as char else c
  }

  /** `s.lower()`, restricted to ASCII letters. */
  function Lower(s: string): string {
    seq(|s|, i requires 0 <= i < |s| => LowerChar(s[i]))
  }

  predicate IsDigit(c: char) {
    '0' <= c <= '9'
  }

  function DigitChar(d: nat): (c: char)
    requires d < 10
  {
    ('0' as int + d) as char
  }

  function DigitValue(c: char): nat {
    if IsDigit(c) then c as int - '0' as int else 0
  }

  function NatToString(n: nat): (r: string)
    ensures r != [] && forall i :: 0 <= i < |r| ==> IsDigit(r[i])
    decreases n
  {
    if n < 10 then [DigitChar(n)] else NatToString(n / 10) + [DigitChar(n % 10)]
  }

  /** `str(n)` for an integer. */
  function IntToString(n: int): string {
    if n < 0 then "-" + NatToString(-n) else NatToString(n)
  }

  /** Decimal digits, with single underscores allowed only between two digits. */
  predicate WellFormedDigits(b: string) {
    b != [] && IsDigit(b[0]) && DigitGroups(b[1..])
  }

  /** What may follow a digit: more digits, each optionally preceded by one underscore. */
  predicate DigitGroups(t: string)
    decreases |t|
  {
    t == []
    || (IsDigit(t[0]) && DigitGroups(t[1..]))
    || (|t| >= 2 && t[0] == '_' && IsDigit(t[1]) && DigitGroups(t[2..]))
  }

  /** The number the digits of `b` spell, underscores ignored. */
  function DigitsValue(b: string): nat
    decreases |b|
  {
    if b == [] then 0
    else if b[|b| - 1] == '_' then DigitsValue(b[..|b| - 1])
    else DigitsValue(b[..|b| - 1]) * 10 + DigitValue(b[|b| - 1])
  }

  /**
   * The whitespace `int` skips around its digits: every `str.isspace`
   * character except the separators U+001C to U+001F, which `int` rejects.
   */
  predicate IntSpace(c: char) {
    IsSpace(c) && !('\U{1C}' <= c <= '\U{1F}')
  }

  /** `s` less its leading IntSpace characters. */
  function TrimIntLeft(s: string): string
    decreases |s|
  {
    if s != [] && IntSpace(s[0]) then TrimIntLeft(s[1..]) else s
  }

  /** `s` less its trailing IntSpace characters. */
  function TrimIntRight(s: string): string
    decreases |s|
  {
    if s != [] && IntSpace(s[|s| - 1]) then TrimIntRight(s[..|s| - 1]) else s
  }

  /**
   * `int(s)`: surrounding whitespace, an optional sign, then ASCII digits with
   * single underscores between them; None where this grammar fails, which is
   * where Python raises ValueError (up to the limits under "Left out").
   */
  function ParseInt(s: string): Option<int> {
    ParseSigned(TrimIntRight(TrimIntLeft(s)))
  }

  /** An optional sign followed by well-formed digits. */
  function ParseSigned(t: string): Option<int> {
    var body := if t != [] && (t[0] == '-' || t[0] == '+') then t[1..] else t;
    if WellFormedDigits(body) then
      Some(if t != [] && t[0] == '-' then -(DigitsValue(body) as int) else DigitsValue(body) as int)
    else None
  }

  // ---------------------------------------------------------------------------
  // Properties

  /** Replacing a pattern that does not occur changes nothing. */
  lemma {:induction false} ReplaceAbsent(s: string, pat: string, rep: string)
    requires pat != [] && !Contains(s, pat)
    ensures Replace(s, pat, rep) == s
    decreases |s|
  {
    if s != [] {
      ReplaceAbsent(s[1..], pat, rep);
    }
  }

  /** Replacing one character by another works position by position. */
  lemma {:induction false} ReplaceChar(s: string, a: char, b: char)
    ensures |Replace(s, [a], [b])| == |s|
    ensures forall i :: 0 <= i < |s| ==> Replace(s, [a], [b])[i] == if s[i] == a then b else s[i]
    decreases |s|
  {
    if s != [] {
      ReplaceChar(s[1..], a, b);
      assert IsPrefix([a], s) <==> s[0] == a;
    }
  }

  lemma ReplaceCharRemoves(s: string, a: char, b: char)
    requires a != b
    ensures a !in Replace(s, [a], [b])
  {
    ReplaceChar(s, a, b);
  }

  /** Replacing by the empty string only deletes: it adds no character and no length. */
  lemma {:induction false} ReplaceOnlyDeletes(s: string, pat: string)
    requires pat != []
    ensures |Replace(s, pat, "")| <= |s|
    ensures forall c :: c in Replace(s, pat, "") ==> c in s
    decreases |s|
  {
    if s != [] {
      if IsPrefix(pat, s) {
        ReplaceOnlyDeletes(s[|pat|..], pat);
        assert forall c :: c in s[|pat|..] ==> c in s;
      } else {
        ReplaceOnlyDeletes(s[1..], pat);
        assert forall c :: c in s[1..] ==> c in s;
      }
    }
  }

  lemma {:induction false} FirstLineOf(a: string, b: string)
    requires '\n' !in a
    ensures FirstLine(a + "\n" + b) == a
    decreases |a|
  {
    if a != [] {
      assert (a + "\n" + b)[1..] == a[1..] + "\n" + b;
      FirstLineOf(a[1..], b);
    }
  }

  lemma {:induction false} AllDigitsGroup(t: string)
    requires forall i :: 0 <= i < |t| ==> IsDigit(t[i])
    ensures DigitGroups(t)
    decreases |t|
  {
    if t != [] {
      AllDigitsGroup(t[1..]);
    }
  }

  lemma {:induction false} DigitsValueOfNat(n: nat)
    ensures WellFormedDigits(NatToString(n))
    ensures DigitsValue(NatToString(n)) == n
    decreases n
  {
    var r := NatToString(n);
    AllDigitsGroup(r[1..]);
    if n >= 10 {
      DigitsValueOfNat(n / 10);
      assert r[..|r| - 1] == NatToString(n / 10);
    }
  }

  lemma ParseSignedOfInt(n: int)
    ensures ParseSigned(IntToString(n)) == Some(n)
  {
    var m: nat := if n < 0 then -n else n;
    DigitsValueOfNat(m);
    if n < 0 {
      assert IntToString(n)[1..] == NatToString(m);
    }
  }

  /** `str(n)` has no whitespace for `int` to skip. */
  lemma IntToStringUnpadded(n: int)
    ensures TrimIntRight(TrimIntLeft(IntToString(n))) == IntToString(n)
  {
    var m: nat := if n < 0 then -n else n;
    var digits := NatToString(m);
    var s := IntToString(n);
    assert IsDigit(digits[0]) && IsDigit(digits[|digits| - 1]);
    assert s[|s| - 1] == digits[|digits| - 1];
    assert s[0] == '-' || s[0] == digits[0];
    assert TrimIntLeft(s) == s;
  }

  /** `int` rejects a number preceded by a separator character, though `strip` would remove it. */
  lemma SeparatorIsNotSkipped(t: string)
    requires t != [] && '\U{1C}' <= t[0] <= '\U{1F}'
    ensures IsSpace(t[0]) && ParseInt(t) == None
  {
    assert TrimIntLeft(t) == t;
    assert TrimIntRight(t) != [] && TrimIntRight(t)[0] == t[0] by {
      TrimIntRightKeepsHead(t);
    }
  }

  lemma {:induction false} TrimIntRightKeepsHead(t: string)
    requires t != [] && !IntSpace(t[0])
    ensures TrimIntRight(t) != [] && TrimIntRight(t)[0] == t[0]
    decreases |t|
  {
    if IntSpace(t[|t| - 1]) {
      TrimIntRightKeepsHead(t[..|t| - 1]);
    }
  }

  /** `int(str(n)) == n` for every integer. */
  lemma ParseIntRoundTrip(n: int)
    ensures ParseInt(IntToString(n)) == Some(n)
  {
    IntToStringUnpadded(n);
    ParseSignedOfInt(n);
  }
}
