/**
 * Character and string helpers shared by the front end and the Python back end:
 * ASCII case mapping, Python's whitespace stripping and substring search.
 */
module Text {

  predicate IsAsciiUpper(c: char) { 'A' <= c <= 'Z' }
  predicate IsAsciiLower(c: char) { 'a' <= c <= 'z' }
  predicate IsAsciiDigit(c: char) { '0' <= c <= '9' }

  function UpperChar(c: char): (r: char)
    ensures !IsAsciiLower(r)
    ensures IsAsciiLower(c) ==> r as int == c as int - 32
    ensures !IsAsciiLower(c) ==> r == c
  {
    if IsAsciiLower(c) then (c as int - 32) as char else c
  }

  function LowerChar(c: char): (r: char)
    ensures !IsAsciiUpper(r)
    ensures IsAsciiUpper(c) ==> r as int == c as int + 32
    ensures !IsAsciiUpper(c) ==> r == c
  {
    if IsAsciiUpper(c) then (c as int + 32) as char else c
  }

  /** `toUpperCase()` / `str.upper()` on the ASCII letters. */
  function Upper(s: string): (r: string)
    ensures |r| == |s|
    ensures forall i :: 0 <= i < |s| ==> r[i] == UpperChar(s[i])
  {
    seq(|s|, i requires 0 <= i < |s| => UpperChar(s[i]))
  }

  /** `str.lower()` on the ASCII letters. */
  function Lower(s: string): (r: string)
    ensures |r| == |s|
    ensures forall i :: 0 <= i < |s| ==> r[i] == LowerChar(s[i])
  {
    seq(|s|, i requires 0 <= i < |s| => LowerChar(s[i]))
  }

  lemma UpperIdempotent(s: string)
    ensures Upper(Upper(s)) == Upper(s)
  {
  }

  lemma LowerAppend(a: string, b: string)
    ensures Lower(a + b) == Lower(a) + Lower(b)
  {
  }

  lemma LowerSlice(s: string, i: nat, j: nat)
    requires i <= j <= |s|
    ensures Lower(s)[i..j] == Lower(s[i..j])
  {
  }

  /** Text without upper-case ASCII letters is its own lower-case form. */
  lemma LowerIdentity(s: string)
    requires forall i :: 0 <= i < |s| ==> !IsAsciiUpper(s[i])
    ensures Lower(s) == s
  {
  }

  lemma LowerOfUpper(s: string)
    ensures Lower(Upper(s)) == Lower(s)
  {
    forall i | 0 <= i < |s| ensures Lower(Upper(s))[i] == Lower(s)[i] {
      if IsAsciiLower(s[i]) {
        assert Upper(s)[i] as int == s[i] as int - 32;
      }
    }
  }

  /** True when every character of `s` is a decimal digit. */
  predicate AllDigits(s: string) {
    forall i :: 0 <= i < |s| ==> IsAsciiDigit(s[i])
  }

  /** `s.padStart(3, '0')`: left-pad with zeros to length 3. */
  function PadStart3(s: string): (r: string)
    ensures |s| <= 3 ==> |r| == 3 && r[3 - |s|..] == s
    ensures |s| <= 3 ==> forall i :: 0 <= i < 3 - |s| ==> r[i] == '0'
    ensures |s| > 3 ==> r == s
  {
    if |s| >= 3 then s else seq(3 - |s|, _ => '0') + s
  }

  /**
   * The characters Python's `str.strip()` removes: those for which
   * `str.isspace()` holds.
   */
  predicate IsPyWhitespace(c: char) {
    var n := c as int;
    (0x09 <= n <= 0x0D) || (0x1C <= n <= 0x20) || n == 0x85 || n == 0xA0 ||
    n == 0x1680 || (0x2000 <= n <= 0x200A) || n == 0x2028 || n == 0x2029 ||
    n == 0x202F || n == 0x205F || n == 0x3000
  }

  predicate AllWhitespace(s: string) {
    forall i :: 0 <= i < |s| ==> IsPyWhitespace(s[i])
  }

  function TrimLeft(s: string): (r: string)
    ensures |r| <= |s| && r == s[|s| - |r|..]
    ensures r == [] || !IsPyWhitespace(r[0])
    ensures AllWhitespace(s[..|s| - |r|])
  {
    if |s| > 0 && IsPyWhitespace(s[0]) then
      var r := TrimLeft(s[1..]);
      TrimLeftStep(s, r);
      r
    else s
  }

  /** A kept suffix of `s` minus its leading whitespace character is a kept suffix of `s`. */
  lemma TrimLeftStep(s: string, r: string)
    requires |s| > 0 && IsPyWhitespace(s[0])
    requires |r| <= |s| - 1 && r == s[1..][|s| - 1 - |r|..] && AllWhitespace(s[1..][..|s| - 1 - |r|])
    ensures r == s[|s| - |r|..] && AllWhitespace(s[..|s| - |r|])
  {
    assert forall i :: 1 <= i < |s| - |r| ==> s[i] == s[1..][..|s| - 1 - |r|][i - 1];
  }

  function TrimRight(s: string): (r: string)
    ensures |r| <= |s| && r == s[..|r|]
    ensures r == [] || !IsPyWhitespace(r[|r| - 1])
    ensures AllWhitespace(s[|r|..])
  {
    if |s| > 0 && IsPyWhitespace(s[|s| - 1]) then
      var r := TrimRight(s[..|s| - 1]);
      TrimRightStep(s, r);
      r
    else s
  }

  /** A kept prefix of `s` minus its trailing whitespace character is a kept prefix of `s`. */
  lemma TrimRightStep(s: string, r: string)
    requires |s| > 0 && IsPyWhitespace(s[|s| - 1])
    requires |r| <= |s| - 1 && r == s[..|s| - 1][..|r|] && AllWhitespace(s[..|s| - 1][|r|..])
    ensures r == s[..|r|] && AllWhitespace(s[|r|..])
  {
    assert forall i :: |r| <= i < |s| - 1 ==> s[i] == s[..|s| - 1][|r|..][i - |r|];
  }

  /** Python's `str.strip()` with no argument. */
  function Strip(s: string): (r: string) {
    TrimRight(TrimLeft(s))
  }

  /** Python's `needle in text` on strings: a contiguous occurrence. */
  predicate Contains(text: string, needle: string)
    decreases |text|
  {
    needle <= text || (|text| > 0 && Contains(text[1..], needle))
  }

  lemma {:induction false} TrimLeftSkipsWhitespace(w: string, x: string)
    requires AllWhitespace(w)
    ensures TrimLeft(w + x) == TrimLeft(x)
    decreases |w|
  {
    if w != [] {
      var wx := w + x;
      assert wx[0] == w[0] && IsPyWhitespace(w[0]);
      assert TrimLeft(wx) == TrimLeft(wx[1..]);
      assert wx[1..] == w[1..] + x;
      assert AllWhitespace(w[1..]);
      TrimLeftSkipsWhitespace(w[1..], x);
      assert TrimLeft(wx) == TrimLeft(x);
    } else {
      assert w + x == x;
    }
  }

  lemma {:induction false} TrimRightSkipsWhitespace(x: string, w: string)
    requires AllWhitespace(w)
    ensures TrimRight(x + w) == TrimRight(x)
    decreases |w|
  {
    if w != [] {
      var n := |w| - 1;
      var xw := x + w;
      assert xw[|xw| - 1] == w[n] && IsPyWhitespace(w[n]);
      assert TrimRight(xw) == TrimRight(xw[..|xw| - 1]);
      assert xw[..|xw| - 1] == x + w[..n];
      assert AllWhitespace(w[..n]);
      TrimRightSkipsWhitespace(x, w[..n]);
    } else {
      assert x + w == x;
    }
  }

  lemma {:induction false} TrimLeftThenWhitespace(s: string, w: string)
    requires AllWhitespace(w)
    ensures AllWhitespace(s) ==> TrimLeft(s + w) == ""
    ensures !AllWhitespace(s) ==> TrimLeft(s + w) == TrimLeft(s) + w
    decreases |s|
  {
    if AllWhitespace(s) {
      TrimLeftSkipsWhitespace(s, w);
      TrimLeftSkipsWhitespace(w, "");
      assert w + "" == w;
    } else if IsPyWhitespace(s[0]) {
      assert (s + w)[1..] == s[1..] + w;
      TrimLeftThenWhitespace(s[1..], w);
    }
  }

  /** Surrounding whitespace makes no difference to `strip()`. */
  lemma StripIgnoresPadding(w1: string, s: string, w2: string)
    requires AllWhitespace(w1) && AllWhitespace(w2)
    ensures Strip(w1 + s + w2) == Strip(s)
  {
    assert w1 + s + w2 == w1 + (s + w2);
    TrimLeftSkipsWhitespace(w1, s + w2);
    TrimLeftThenWhitespace(s, w2);
    if AllWhitespace(s) {
      TrimLeftThenWhitespace(s, "");
      assert s + "" == s;
    } else {
      TrimRightSkipsWhitespace(TrimLeft(s), w2);
    }
  }

  lemma LowerKeepsWhitespace(c: char)
    ensures IsPyWhitespace(LowerChar(c)) == IsPyWhitespace(c)
  {
  }

  lemma {:induction false} LowerTrimLeft(s: string)
    ensures Lower(TrimLeft(s)) == TrimLeft(Lower(s))
    decreases |s|
  {
    if s != [] {
      LowerKeepsWhitespace(s[0]);
      if IsPyWhitespace(s[0]) {
        assert Lower(s)[1..] == Lower(s[1..]);
        LowerTrimLeft(s[1..]);
      }
    }
  }

  lemma {:induction false} LowerTrimRight(s: string)
    ensures Lower(TrimRight(s)) == TrimRight(Lower(s))
    decreases |s|
  {
    if s != [] {
      var n := |s| - 1;
      LowerKeepsWhitespace(s[n]);
      if IsPyWhitespace(s[n]) {
        assert Lower(s)[..n] == Lower(s[..n]);
        LowerTrimRight(s[..n]);
      }
    }
  }

  /** Lower-casing and stripping commute. */
  lemma LowerStrip(s: string)
    ensures Lower(Strip(s)) == Strip(Lower(s))
  {
    LowerTrimRight(TrimLeft(s));
    LowerTrimLeft(s);
  }

  /** An occurrence in `s` is an occurrence in any text that contains `s`. */
  lemma {:induction false} ContainsInExtension(p: string, s: string, t: string, needle: string)
    requires Contains(s, needle)
    ensures Contains(p + s + t, needle)
    decreases |p|
  {
    if p == [] {
      assert p + s + t == s + t;
      ContainsAppend(s, t, needle);
    } else {
      assert (p + s + t)[1..] == p[1..] + s + t;
      ContainsInExtension(p[1..], s, t, needle);
    }
  }

  lemma {:induction false} ContainsAppend(s: string, t: string, needle: string)
    requires Contains(s, needle)
    ensures Contains(s + t, needle)
    decreases |s|
  {
    if !(needle <= s) {
      assert (s + t)[1..] == s[1..] + t;
      ContainsAppend(s[1..], t, needle);
    }
  }

  /** `needle` occurs in `text` starting at index `i`. */
  predicate OccursAt(text: string, needle: string, i: nat) {
    i + |needle| <= |text| && text[i..i + |needle|] == needle
  }

  lemma {:induction false} OccurrenceIsContained(text: string, needle: string, i: nat)
    requires OccursAt(text, needle, i)
    ensures Contains(text, needle)
    decreases i
  {
    if i == 0 {
      assert text[..|needle|] == needle;
    } else {
      assert text[1..][i - 1..i - 1 + |needle|] == text[i..i + |needle|];
      OccurrenceIsContained(text[1..], needle, i - 1);
    }
  }

  lemma {:induction false} ContainedOccurs(text: string, needle: string) returns (i: nat)
    requires Contains(text, needle)
    ensures OccursAt(text, needle, i)
    decreases |text|
  {
    if needle <= text {
      i := 0;
      assert text[..|needle|] == needle;
    } else {
      var j := ContainedOccurs(text[1..], needle);
      i := j + 1;
      assert text[i..i + |needle|] == text[1..][j..j + |needle|];
    }
  }

  /** `Contains` holds exactly when the needle occurs at some index of the text. */
  lemma ContainsIffOccurs(text: string, needle: string)
    ensures Contains(text, needle) <==> exists i: nat :: OccursAt(text, needle, i)
  {
    if Contains(text, needle) {
      var i := ContainedOccurs(text, needle);
    }
    if exists i: nat :: OccursAt(text, needle, i) {
      var i: nat :| OccursAt(text, needle, i);
      OccurrenceIsContained(text, needle, i);
    }
  }

  /** A text without whitespace at either end is left as it is by `strip()`. */
  lemma StripUnpadded(s: string)
    requires s == [] || (!IsPyWhitespace(s[0]) && !IsPyWhitespace(s[|s| - 1]))
    ensures Strip(s) == s
  {
  }
}
