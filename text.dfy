/**
 * String primitives the admin console uses through JavaScript built-ins:
 * ASCII lowercasing, the `[^a-z0-9]` to '-' replacement, `trim()`,
 * `includes()`, `split('.').pop()` and the decimal rendering of an integer
 * inside a template literal.
 */
module Text {

  // ---------------------------------------------------------------------------
  // Characters

  /** `toLowerCase()` restricted to ASCII: 'A'..'Z' map to 'a'..'z', everything else is kept. */
  function LowerChar(c: char): char {
    if 'A' <= c <= 'Z' then (c as int + 32) as char else c
  }

  /** The characters the regular expression `[a-z0-9]` accepts. */
  predicate IsSlugChar(c: char) {
    'a' <= c <= 'z' || '0' <= c <= '9'
  }

  predicate IsDigit(c: char) {
    '0' <= c <= '9'
  }

  /** JavaScript's WhiteSpace and LineTerminator code points, the set `trim()` removes. */
  predicate IsJsSpace(c: char) {
    c == '\t' || c == '\n' || c == '\U{000B}' || c == '\U{000C}' || c == '\r' || c == ' '
    || c == '\U{00A0}' || c == '\U{1680}' || ('\U{2000}' <= c <= '\U{200A}')
    || c == '\U{2028}' || c == '\U{2029}' || c == '\U{202F}' || c == '\U{205F}'
    || c == '\U{3000}' || c == '\U{FEFF}'
  }

  // ---------------------------------------------------------------------------
  // Whole strings

  /** `s.toLowerCase()` for ASCII letters. */
  function Lower(s: string): (r: string)
    ensures |r| == |s|
    ensures forall i :: 0 <= i < |s| ==> r[i] == LowerChar(s[i])
  {
    seq(|s|, i requires 0 <= i < |s| => LowerChar(s[i]))
  }

  /** Lowercasing twice is lowercasing once. */
  lemma LowerIdempotent(s: string)
    ensures Lower(Lower(s)) == Lower(s)
  {
  }

  /** `s.replace(/[^a-z0-9]/g, '-')`. */
  function Hyphenate(s: string): (r: string)
    ensures |r| == |s|
    ensures forall i :: 0 <= i < |s| ==> r[i] == if IsSlugChar(s[i]) then s[i] else '-'
  {
    seq(|s|, i requires 0 <= i < |s| => if IsSlugChar(s[i]) then s[i] else '-')
  }

  /** Every character is one of `a`-`z`, `0`-`9` or `-`. */
  predicate OnlySlugChars(s: string) {
    forall i :: 0 <= i < |s| ==> IsSlugChar(s[i]) || s[i] == '-'
  }

  /** `s.includes(sub)`: `sub` occurs in `s` at some offset. */
  predicate Includes(s: string, sub: string) {
    sub <= s || (|s| > 0 && Includes(s[1..], sub))
  }

  /** The reference reading of `includes`: some window of `s` equals `sub`. */
  ghost predicate OccursAt(s: string, sub: string, k: int) {
    0 <= k && k + |sub| <= |s| && s[k..k + |sub|] == sub
  }

  lemma {:induction false} IncludesIffOccurs(s: string, sub: string)
    ensures Includes(s, sub) <==> exists k :: OccursAt(s, sub, k)
  {
    if sub <= s {
      assert s[0..|sub|] == sub;
      assert OccursAt(s, sub, 0);
    } else if |s| == 0 {
      assert |sub| > 0;
    } else {
      IncludesIffOccurs(s[1..], sub);
      if Includes(s[1..], sub) {
        var k :| OccursAt(s[1..], sub, k);
        assert s[1..][k..k + |sub|] == s[k + 1..k + 1 + |sub|];
        assert OccursAt(s, sub, k + 1);
      } else {
        forall k | 0 < k && OccursAt(s, sub, k) ensures OccursAt(s[1..], sub, k - 1) {
          assert s[1..][k - 1..k - 1 + |sub|] == s[k..k + |sub|];
        }
      }
    }
  }

  /** The empty string occurs in every string, so an empty search keeps everything. */
  lemma IncludesEmpty(s: string)
    ensures Includes(s, "")
  {
  }

  // ---------------------------------------------------------------------------
  // trim()

  /** `s.trimStart()`: the suffix left after dropping leading white space. */
  function TrimStart(s: string): (r: string)
    ensures |r| <= |s|
    ensures forall i :: 0 <= i < |s| - |r| ==> IsJsSpace(s[i])
    ensures r == [] || !IsJsSpace(r[0])
  {
    if s != [] && IsJsSpace(s[0]) then TrimStart(s[1..]) else s
  }

  /** What `trimStart()` leaves is a suffix of the text. */
  lemma {:induction false} TrimStartIsSuffix(s: string)
    ensures TrimStart(s) == s[|s| - |TrimStart(s)|..]
  {
    if s != [] && IsJsSpace(s[0]) {
      TrimStartIsSuffix(s[1..]);
      assert s[1..][|s| - 1 - |TrimStart(s)|..] == s[|s| - |TrimStart(s)|..];
    }
  }

  /** `s.trimEnd()`: the prefix left after dropping trailing white space. */
  function TrimEnd(s: string): (r: string)
    ensures |r| <= |s| && r == s[..|r|]
    ensures forall i :: |r| <= i < |s| ==> IsJsSpace(s[i])
    ensures r == [] || !IsJsSpace(r[|r| - 1])
  {
    if s != [] && IsJsSpace(s[|s| - 1]) then TrimEnd(s[..|s| - 1]) else s
  }

  /** `s.trim()`. */
  function Trim(s: string): string {
    TrimEnd(TrimStart(s))
  }

  /** `!s.trim()` holds exactly when `s` is made of white space only. */
  lemma TrimEmptyIff(s: string)
    ensures Trim(s) == [] <==> forall i :: 0 <= i < |s| ==> IsJsSpace(s[i])
  {
    var t := TrimStart(s);
    TrimStartIsSuffix(s);
    if Trim(s) == [] {
      forall i | 0 <= i < |s| ensures IsJsSpace(s[i]) {
        if i >= |s| - |t| {
          assert t[i - (|s| - |t|)] == s[i];
        }
      }
    } else {
      var r := Trim(s);
      assert r[0] == t[0] == s[|s| - |t|];
    }
  }

  /** A trimmed string starts and ends with a non-space character. */
  lemma TrimEdges(s: string)
    ensures Trim(s) == [] || (!IsJsSpace(Trim(s)[0]) && !IsJsSpace(Trim(s)[|Trim(s)| - 1]))
  {
    var t := TrimStart(s);
    TrimStartIsSuffix(s);
    if Trim(s) != [] {
      assert Trim(s)[0] == t[0];
    }
  }

  // ---------------------------------------------------------------------------
  // split('.').pop()

  /**
   * `name.split('.').pop()`: the text after the last '.' of `name`, or the
   * whole of `name` when it has no '.'.
   */
  function Extension(name: string): (r: string)
    ensures |r| <= |name|
    ensures '.' !in r
    ensures |r| < |name| ==> name[|name| - |r| - 1] == '.'
  {
    if name == [] then []
    else if name[|name| - 1] == '.' then []
    else Extension(name[..|name| - 1]) + [name[|name| - 1]]
  }

  /** The extension is a suffix of the name. */
  lemma {:induction false} ExtensionIsSuffix(name: string)
    ensures Extension(name) == name[|name| - |Extension(name)|..]
  {
    if name != [] && name[|name| - 1] != '.' {
      var init := name[..|name| - 1];
      ExtensionIsSuffix(init);
      assert init[|init| - |Extension(init)|..] + [name[|name| - 1]] == name[|name| - |Extension(name)|..];
    }
  }

  /** Without a '.', the extension is the whole name. */
  lemma ExtensionNoDot(name: string)
    requires '.' !in name
    ensures Extension(name) == name
  {
    var r := Extension(name);
    ExtensionIsSuffix(name);
    assert forall i :: 0 <= i < |name| ==> name[i] in name;
  }

  /** Whatever precedes the last '.', the extension is what follows it. */
  lemma {:induction false} ExtensionAfterDot(prefix: string, ext: string)
    requires '.' !in ext
    ensures Extension(prefix + "." + ext) == ext
  {
    var s := prefix + "." + ext;
    if ext == [] {
    } else {
      var last := ext[|ext| - 1];
      assert last in ext;
      assert s[..|s| - 1] == prefix + "." + ext[..|ext| - 1];
      assert forall c :: c in ext[..|ext| - 1] ==> c in ext;
      ExtensionAfterDot(prefix, ext[..|ext| - 1]);
      assert ext[..|ext| - 1] + [last] == ext;
    }
  }

  // ---------------------------------------------------------------------------
  // Decimal text of a natural number, as `${n}` renders it

  function DigitChar(d: nat): char
    requires d < 10
  {
    ('0' as int + d) as char
  }

  function DigitValue(c: char): nat
    requires IsDigit(c)
  {
    c as int - '0' as int
  }

  predicate AllDigits(s: string) {
    forall i :: 0 <= i < |s| ==> IsDigit(s[i])
  }

  /** The number a string of decimal digits denotes. */
  function DecimalValue(s: string): nat
    requires AllDigits(s)
  {
    if s == [] then 0 else 10 * DecimalValue(s[..|s| - 1]) + DigitValue(s[|s| - 1])
  }

  /** `${n}` for a non-negative integer: a non-empty string of decimal digits. */
  function DecimalText(n: nat): (r: string)
    ensures |r| >= 1 && AllDigits(r)
  {
    if n < 10 then [DigitChar(n)] else DecimalText(n / 10) + [DigitChar(n % 10)]
  }

  /** The decimal text reads back to the number it renders. */
  lemma {:induction false} DecimalRoundTrip(n: nat)
    ensures DecimalValue(DecimalText(n)) == n
  {
    if n >= 10 {
      var r := DecimalText(n);
      assert r[..|r| - 1] == DecimalText(n / 10);
      DecimalRoundTrip(n / 10);
    }
  }

  /** The longest prefix of `s` made of decimal digits. */
  function LeadingDigits(s: string): (r: string)
    ensures AllDigits(r) && r <= s
  {
    if s != [] && IsDigit(s[0]) then [s[0]] + LeadingDigits(s[1..]) else []
  }

  /** Digits followed by a non-digit: the leading digits are exactly those digits. */
  lemma {:induction false} LeadingDigitsOf(digits: string, rest: string)
    requires AllDigits(digits)
    requires rest != [] && !IsDigit(rest[0])
    ensures LeadingDigits(digits + rest) == digits
  {
    if digits != [] {
      assert (digits + rest)[1..] == digits[1..] + rest;
      LeadingDigitsOf(digits[1..], rest);
      assert [digits[0]] + digits[1..] == digits;
    }
  }

  /** `<digits>.<ext>`: the extension and the leading digits both read back. */
  lemma DigitsDotExtension(digits: string, ext: string)
    requires AllDigits(digits) && '.' !in ext
    ensures Extension(digits + "." + ext) == ext
    ensures LeadingDigits(digits + "." + ext) == digits
  {
    var tail := "." + ext;
    LeadingDigitsOf(digits, tail);
    assert digits + "." + ext == digits + tail;
    ExtensionAfterDot(digits, ext);
  }

  /** `<digits>-<middle>.<ext>`: the digits, the separator and the extension all read back. */
  lemma DigitsDashExtension(digits: string, middle: string, ext: string)
    requires AllDigits(digits) && '.' !in ext
    ensures var r := digits + "-" + middle + "." + ext;
      && |r| > |digits| && r[|digits|] == '-'
      && LeadingDigits(r) == digits && Extension(r) == ext
  {
    var r := digits + "-" + middle + "." + ext;
    assert r == digits + ("-" + middle + "." + ext);
    LeadingDigitsOf(digits, "-" + middle + "." + ext);
    ExtensionAfterDot(digits + "-" + middle, ext);
  }

  /** In `<digits>-<middle>.<ext>`, the middle sits between the '-' and the '.' before the extension. */
  lemma DashMiddleDot(digits: string, middle: string, ext: string)
    ensures var r := digits + "-" + middle + "." + ext;
      && |r| == |digits| + |middle| + |ext| + 2 && r[|r| - |ext| - 1] == '.'
      && r[|digits| + 1..|r| - |ext| - 1] == middle
  {
    var r := digits + "-" + middle + "." + ext;
    assert r == (digits + "-") + middle + ("." + ext);
  }

  /** `<prefix>-<digits>.<ext>`: prefix, separator, leading digits and extension all read back. */
  lemma PrefixedDigitsDotExtension(prefix: string, digits: string, ext: string)
    requires AllDigits(digits) && '.' !in ext
    ensures var r := prefix + "-" + digits + "." + ext;
      && |r| > |prefix| && r[..|prefix|] == prefix && r[|prefix|] == '-'
      && LeadingDigits(r[|prefix| + 1..]) == digits
      && Extension(r) == ext
  {
    var r := prefix + "-" + digits + "." + ext;
    assert r[|prefix| + 1..] == digits + "." + ext;
    DigitsDotExtension(digits, ext);
    ExtensionAfterDot(prefix + "-" + digits, ext);
  }
}
