/** The string operations the components lean on: trimming, decimal numbers, and the ordering of strings. */
module Text {
  import opened Prelude

  const U32_MAX: nat := 0xFFFF_FFFF
  const U64_MAX: nat := 0xFFFF_FFFF_FFFF_FFFF
  const USIZE_MAX: nat := 0xFFFF_FFFF_FFFF_FFFF

  predicate Contains(s: string, part: string) {
    exists k | 0 <= k <= |s| :: part <= s[k..]
  }

  // ----- texts within texts -----

  ghost predicate Within(part: string, whole: string) {
    exists a: string, b: string :: whole == a + part + b
  }

  lemma WithinJoins(part: string, before: string, whole: string, after: string)
    requires Within(part, whole)
    ensures Within(part, before + whole + after)
  {
    var a, b :| whole == a + part + b;
    assert before + whole + after == (before + a) + part + (b + after);
  }

  lemma WithinSelf(before: string, part: string, after: string)
    ensures Within(part, before + part + after)
  {
  }

  lemma WithinWithin(part: string, whole: string, more: string)
    requires Within(part, whole) && Within(whole, more)
    ensures Within(part, more)
  {
    var a, b :| more == a + whole + b;
    WithinJoins(part, a, whole, b);
  }

  lemma ContainsIsWithin(text: string, part: string)
    ensures Contains(text, part) <==> Within(part, text)
  {
    if Contains(text, part) {
      var k :| 0 <= k <= |text| && part <= text[k..];
      assert text == text[..k] + part + text[k..][|part|..];
    }
    if Within(part, text) {
      var a, b :| text == a + part + b;
      assert text[|a|..] == part + b;
    }
  }

  // ----- trimming -----

  /** Unicode White_Space, which is what `str::trim` removes. */
  predicate IsSpace(c: char) {
    var n := c as int;
    || 0x09 <= n <= 0x0D || n == 0x20 || n == 0x85 || n == 0xA0 || n == 0x1680
    || 0x2000 <= n <= 0x200A || n == 0x2028 || n == 0x2029 || n == 0x202F || n == 0x205F || n == 0x3000
  }

  function TrimStart(s: string): string {
    if s != "" && IsSpace(s[0]) then TrimStart(s[1..]) else s
  }

  function TrimEnd(s: string): string {
    if s != "" && IsSpace(s[|s| - 1]) then TrimEnd(s[..|s| - 1]) else s
  }

  function Trim(s: string): string {
    TrimEnd(TrimStart(s))
  }

  ghost predicate AllSpace(s: string) {
    forall i :: 0 <= i < |s| ==> IsSpace(s[i])
  }

  /** A text whose two ends are not whitespace. */
  ghost predicate Tight(s: string) {
    s != "" && !IsSpace(s[0]) && !IsSpace(s[|s| - 1])
  }

  lemma {:induction false} TrimStartPeels(a: string, s: string)
    requires AllSpace(a)
    ensures TrimStart(a + s) == TrimStart(s)
  {
    if a == "" {
      assert a + s == s;
    } else {
      assert (a + s)[1..] == a[1..] + s;
      TrimStartPeels(a[1..], s);
    }
  }

  lemma {:induction false} TrimEndPeels(s: string, b: string)
    requires AllSpace(b)
    ensures TrimEnd(s + b) == TrimEnd(s)
  {
    if b == "" {
      assert s + b == s;
    } else {
      assert (s + b)[..|s + b| - 1] == s + b[..|b| - 1];
      TrimEndPeels(s, b[..|b| - 1]);
    }
  }

  /** Whatever whitespace surrounds a tight text, trimming gives the text back. */
  lemma TrimPeels(a: string, s: string, b: string)
    requires AllSpace(a) && AllSpace(b) && Tight(s)
    ensures Trim(a + s + b) == s
  {
    assert a + s + b == a + (s + b);
    TrimStartPeels(a, s + b);
    assert TrimStart(s + b) == s + b;
    TrimEndPeels(s, b);
  }

  lemma {:induction false} TrimStartSplits(s: string) returns (a: string)
    ensures AllSpace(a) && s == a + TrimStart(s)
    ensures TrimStart(s) != "" ==> !IsSpace(TrimStart(s)[0])
  {
    if s != "" && IsSpace(s[0]) {
      var rest := TrimStartSplits(s[1..]);
      a := [s[0]] + rest;
    } else {
      a := "";
    }
  }

  lemma {:induction false} TrimEndSplits(s: string) returns (b: string)
    ensures AllSpace(b) && s == TrimEnd(s) + b
    ensures TrimEnd(s) != "" ==> !IsSpace(TrimEnd(s)[|TrimEnd(s)| - 1])
  {
    if s != "" && IsSpace(s[|s| - 1]) {
      var rest := TrimEndSplits(s[..|s| - 1]);
      b := rest + [s[|s| - 1]];
    } else {
      b := "";
    }
  }

  /** Every text is whitespace, its trimmed core, whitespace; and the core is tight unless it is empty. */
  lemma TrimSplits(s: string) returns (a: string, b: string)
    ensures AllSpace(a) && AllSpace(b) && s == a + Trim(s) + b
    ensures Trim(s) != "" ==> Tight(Trim(s))
  {
    a := TrimStartSplits(s);
    b := TrimEndSplits(TrimStart(s));
    assert Trim(s) != "" ==> Trim(s)[0] == TrimStart(s)[0];
  }

  lemma TrimIdempotent(s: string)
    ensures Trim(Trim(s)) == Trim(s)
  {
    var a, b := TrimSplits(s);
    if Trim(s) != "" {
      assert "" + Trim(s) + "" == Trim(s);
      TrimPeels("", Trim(s), "");
    }
  }

  lemma TrimKeepsInk(s: string, i: nat)
    requires i < |s| && !IsSpace(s[i])
    ensures Trim(s) != ""
  {
    var a, b := TrimSplits(s);
  }

  /** Trimming leaves nothing exactly of what is all whitespace. */
  lemma BlankIsAllSpace(s: string)
    ensures Trim(s) == "" <==> AllSpace(s)
  {
    var a, b := TrimSplits(s);
    if AllSpace(s) {
      TrimStartPeels(s, "");
      assert s + "" == s;
    }
  }

  // ----- decimal numbers -----

  predicate IsDigit(c: char) {
    '0' <= c <= '9'
  }

  function DigitChar(d: nat): (c: char)
    requires d < 10
    ensures IsDigit(c) && c as int - '0' as int == d
  {
    ('0' as int + d) as char
  }

  /** The decimal form `format!("{n}")` prints. */
  function Decimal(n: nat): string {
    if n < 10 then [DigitChar(n)] else Decimal(n / 10) + [DigitChar(n % 10)]
  }

  function DigitsValue(s: string): Option<nat> {
    if s == "" then Some(0)
    else
      var c := s[|s| - 1];
      match DigitsValue(s[..|s| - 1])
      case None => None
      case Some(v) => if IsDigit(c) then Some(v * 10 + (c as int - '0' as int)) else None
  }

  /** `str::parse` for an unsigned integer type whose largest value is `max`. */
  function ParseUnsigned(s: string, max: nat): Option<nat> {
    var body := if s != "" && s[0] == '+' then s[1..] else s;
    if body == "" then None
    else
      match DigitsValue(body)
      case None => None
      case Some(v) => if v <= max then Some(v) else None
  }

  lemma {:induction false} DecimalDigits(n: nat)
    ensures Decimal(n) != "" && (forall i :: 0 <= i < |Decimal(n)| ==> IsDigit(Decimal(n)[i]))
    ensures DigitsValue(Decimal(n)) == Some(n)
  {
    if n < 10 {
      assert Decimal(n)[..0] == "";
    } else {
      DecimalDigits(n / 10);
      assert Decimal(n)[..|Decimal(n)| - 1] == Decimal(n / 10);
    }
  }

  /** Printing then parsing an unsigned number gives it back. */
  lemma DecimalRoundTrip(n: nat, max: nat)
    requires n <= max
    ensures ParseUnsigned(Decimal(n), max) == Some(n)
  {
    DecimalDigits(n);
  }

  // ----- ordering -----

  /** `str` ordering: the first differing character decides, and a prefix comes first. */
  predicate Less(a: string, b: string) {
    b != "" && (a == "" || a[0] < b[0] || (a[0] == b[0] && Less(a[1..], b[1..])))
  }

  lemma {:induction false} LessTotal(a: string, b: string)
    ensures Less(a, b) || a == b || Less(b, a)
  {
    if a != "" && b != "" && a[0] == b[0] {
      LessTotal(a[1..], b[1..]);
      assert a == [a[0]] + a[1..] && b == [b[0]] + b[1..];
    }
  }

  lemma {:induction false} LessTransitive(a: string, b: string, c: string)
    requires Less(a, b) && Less(b, c)
    ensures Less(a, c)
  {
    if a != "" && a[0] == b[0] && b[0] == c[0] {
      LessTransitive(a[1..], b[1..], c[1..]);
    }
  }

  lemma {:induction false} LessIrreflexive(a: string)
    ensures !Less(a, a)
  {
    if a != "" {
      LessIrreflexive(a[1..]);
    }
  }

  // ----- what a number is -----

  /** Only digits make a number. */
  lemma {:induction false} DigitsValueNeedsDigits(s: string, i: nat)
    requires DigitsValue(s).Some? && i < |s|
    ensures IsDigit(s[i])
    decreases |s|
  {
    if i < |s| - 1 {
      DigitsValueNeedsDigits(s[..|s| - 1], i);
    }
  }

  /** A text that does not begin like a number is none. */
  lemma NoNumber(s: string, max: nat)
    requires s == "" || (!IsDigit(s[0]) && s[0] != '+')
    ensures ParseUnsigned(s, max) == None
  {
    if s != "" && DigitsValue(s).Some? {
      DigitsValueNeedsDigits(s, 0);
    }
  }

  lemma DecimalIsTight(n: nat)
    ensures Tight(Decimal(n))
  {
    DecimalDigits(n);
    assert forall c :: IsDigit(c) ==> !IsSpace(c);
  }

  /** What parses is what prints, up to the type's largest value, with or without a plus sign. */
  lemma NumbersExactly(n: nat, max: nat)
    ensures ParseUnsigned(Decimal(n), max) == if n <= max then Some(n) else None
    ensures ParseUnsigned("+" + Decimal(n), max) == if n <= max then Some(n) else None
    ensures ParseUnsigned("", max) == ParseUnsigned("+", max) == None
  {
    hide DigitsValue;
    DecimalDigits(n);
    assert ("+" + Decimal(n))[1..] == Decimal(n);
    assert Decimal(n)[0] != '+';
  }

  /** The first character in which two texts differ orders them, and a text comes before what extends it. */
  lemma {:induction false} LessByFirstDifference(common: string, x: char, y: char, a: string, b: string)
    requires x != y
    ensures Less(common + ([x] + a), common + ([y] + b)) <==> x < y
    ensures Less(common, common + ([x] + a)) && !Less(common + ([x] + a), common)
    decreases |common|
  {
    var s, t := common + ([x] + a), common + ([y] + b);
    if common != "" {
      assert s[1..] == common[1..] + ([x] + a) && t[1..] == common[1..] + ([y] + b);
      LessByFirstDifference(common[1..], x, y, a, b);
    } else {
      assert s == [x] + a && t == [y] + b;
    }
  }
}
