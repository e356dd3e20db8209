/**
 * Finding a JSON value in a model's answer: the string-aware bracket scan and the code-fence stripping
 * (src/flow_exec.rs).
 */
module JsonScan {
  import opened Prelude
  import opened Text

  // ----- the scanner -----

  datatype Brackets = Brackets(open: char, close: char)

  datatype Scan = Scan(depth: int, inStr: bool, esc: bool)

  const START: Scan := Scan(0, false, false)

  function Fed(b: Brackets, st: Scan, c: char): Scan {
    if st.inStr then
      if st.esc then st.(esc := false)
      else if c == '\\' then st.(esc := true)
      else if c == '"' then st.(inStr := false)
      else st
    else if c == '"' then st.(inStr := true)
    else if c == b.open then st.(depth := st.depth + 1)
    else if c == b.close then st.(depth := st.depth - 1)
    else st
  }

  /** The scan ends on a closing bracket, outside strings, that brings the depth to zero. */
  predicate Stops(b: Brackets, st: Scan, c: char) {
    !st.inStr && c != '"' && c != b.open && c == b.close && st.depth == 1
  }

  /** How many characters of `s` the scan takes until it stops. */
  function StopAt(b: Brackets, st: Scan, s: string): (n: Option<nat>)
    ensures n.Some? ==> 0 < n.value <= |s|
    decreases |s|
  {
    if s == "" then None
    else if Stops(b, st, s[0]) then Some(1)
    else
      match StopAt(b, Fed(b, st, s[0]), s[1..])
      case None => None
      case Some(n) => Some(n + 1)
  }

  predicate IsOpen(c: char) {
    c == '{' || c == '['
  }

  function BracketsFor(open: char): Brackets {
    Brackets(open, if open == '{' then '}' else ']')
  }

  function FirstOpen(s: string): (r: Option<nat>)
    ensures r.Some? ==> r.value < |s| && IsOpen(s[r.value]) && forall i :: 0 <= i < r.value ==> !IsOpen(s[i])
    ensures r.None? ==> forall i :: 0 <= i < |s| ==> !IsOpen(s[i])
  {
    if s == "" then None
    else if IsOpen(s[0]) then Some(0)
    else
      match FirstOpen(s[1..])
      case None => None
      case Some(n) => Some(n + 1)
  }

  /** The slice the scan hands to the parser. */
  function JsonSlice(s: string): Option<string> {
    match FirstOpen(s)
    case None => None
    case Some(start) =>
      match StopAt(BracketsFor(s[start]), START, s[start..])
      case None => None
      case Some(n) => Some(s[start..start + n])
  }

  /** One character of the scan. */
  lemma StopAtStep(b: Brackets, st: Scan, s: string, i: nat)
    requires i < |s|
    ensures Stops(b, st, s[i]) ==> StopAt(b, st, s[i..]) == Some(1)
    ensures !Stops(b, st, s[i]) ==> StopAt(b, st, s[i..]) == Later(StopAt(b, Fed(b, st, s[i]), s[i + 1..]), 1)
  {
    assert s[i..][0] == s[i] && s[i..][1..] == s[i + 1..];
  }

  /** `first_json_value`, for any parser. */
  method FirstJsonValue<V>(s: string, parse: string -> Option<V>) returns (r: Option<V>)
    ensures r == Parsed(JsonSlice(s), parse)
  {
    hide StopAt, FirstOpen;
    var first := FirstOpen(s);
    if first.None? {
      return None;
    }
    var start := first.value;
    var b := BracketsFor(s[start]);
    var depth, inStr, esc := 0, false, false;
    var i := start;
    while i < |s|
      invariant start <= i <= |s|
      invariant StopAt(b, START, s[start..]) == Later(StopAt(b, Scan(depth, inStr, esc), s[i..]), i - start)
    {
      var c := s[i];
      StopAtStep(b, Scan(depth, inStr, esc), s, i);
      if inStr {
        if esc {
          esc := false;
        } else if c == '\\' {
          esc := true;
        } else if c == '"' {
          inStr := false;
        }
      } else if c == '"' {
        inStr := true;
      } else if c == b.open {
        depth := depth + 1;
      } else if c == b.close {
        depth := depth - 1;
        if depth == 0 {
          return parse(s[start..i + 1]);
        }
      }
      i := i + 1;
    }
    StopAtEnd(b, Scan(depth, inStr, esc), s);
    return None;
  }

  lemma StopAtEnd(b: Brackets, st: Scan, s: string)
    ensures StopAt(b, st, s[|s|..]) == None
  {
  }

  function Later(n: Option<nat>, k: nat): Option<nat> {
    if n.None? then None else Some(n.value + k)
  }

  function Parsed<V>(slice: Option<string>, parse: string -> Option<V>): Option<V> {
    if slice.None? then None else parse(slice.value)
  }

  // ----- the texts of RFC 8259 -----

  /** A character of a string: itself (section 7), a two-character escape, or a `\u` escape. */
  datatype Unit = Plain(c: char) | Short(c: char) | Hex(a: char, b: char, c: char, d: char)

  datatype Exponent = Exponent(e: char, sign: Option<char>, digits: string)

  /** A key with the whitespace around it; the colon follows. */
  datatype Key = Key(before: string, name: seq<Unit>, after: string)

  /** JSON texts with their whitespace, as sections 2 to 7 of RFC 8259 allow it. */
  datatype Json =
    | True
    | False
    | Null
    | Number(minus: bool, whole: string, fraction: Option<string>, exponent: Option<Exponent>)
    | Str(units: seq<Unit>)
    | Array(body: Body)
    | Object(body: Body)

  /** What stands between the brackets; members of objects carry a key, elements of arrays do not. */
  datatype Body =
    | Nothing(blank: string)
    | Last(key: Option<Key>, before: string, value: Json, after: string)
    | More(key: Option<Key>, before: string, value: Json, after: string, rest: Body)

  predicate Blank(s: string) {
    forall i | 0 <= i < |s| :: s[i] == ' ' || s[i] == '\t' || s[i] == '\n' || s[i] == '\r'
  }

  predicate Digits(s: string) {
    s != "" && forall i | 0 <= i < |s| :: IsDigit(s[i])
  }

  predicate IsHex(c: char) {
    IsDigit(c) || 'a' <= c <= 'f' || 'A' <= c <= 'F'
  }

  predicate ValidUnit(u: Unit) {
    match u
    case Plain(c) => c as int >= 0x20 && c != '"' && c != '\\'
    case Short(c) => c in "\"\\/bfnrt"
    case Hex(a, b, c, d) => IsHex(a) && IsHex(b) && IsHex(c) && IsHex(d)
  }

  predicate ValidUnits(us: seq<Unit>) {
    forall i | 0 <= i < |us| :: ValidUnit(us[i])
  }

  predicate ValidKey(key: Option<Key>, keyed: bool) {
    match key
    case None => !keyed
    case Some(l) => keyed && Blank(l.before) && ValidUnits(l.name) && Blank(l.after)
  }

  predicate Valid(j: Json) {
    match j
    case Number(_, whole, fraction, exponent) =>
      && Digits(whole) && (whole[0] == '0' ==> |whole| == 1)
      && (fraction.Some? ==> Digits(fraction.value))
      && (exponent.Some? ==> exponent.value.e in "eE" && Digits(exponent.value.digits)
                             && (exponent.value.sign.Some? ==> exponent.value.sign.value in "+-"))
    case Str(units) => ValidUnits(units)
    case Array(body) => ValidBody(body, false)
    case Object(body) => ValidBody(body, true)
    case _ => true
  }

  predicate ValidBody(b: Body, keyed: bool) {
    match b
    case Nothing(blank) => Blank(blank)
    case Last(key, before, value, after) => ValidKey(key, keyed) && Blank(before) && Valid(value) && Blank(after)
    case More(key, before, value, after, rest) =>
      ValidKey(key, keyed) && Blank(before) && Valid(value) && Blank(after) && !rest.Nothing? && ValidBody(rest, keyed)
  }

  function ShowUnit(u: Unit): string {
    match u
    case Plain(c) => [c]
    case Short(c) => ['\\', c]
    case Hex(a, b, c, d) => ['\\', 'u', a, b, c, d]
  }

  function ShowUnits(us: seq<Unit>): string {
    if us == [] then "" else ShowUnit(us[0]) + ShowUnits(us[1..])
  }

  function ShowString(us: seq<Unit>): string {
    "\"" + (ShowUnits(us) + "\"")
  }

  function ShowKey(key: Option<Key>): string {
    match key
    case None => ""
    case Some(l) => l.before + (ShowString(l.name) + (l.after + ":"))
  }

  function ShowNumber(j: Json): string
    requires j.Number?
  {
    (if j.minus then "-" else "") + j.whole
    + (if j.fraction.Some? then "." + j.fraction.value else "")
    + (if j.exponent.Some? then
         [j.exponent.value.e] + (if j.exponent.value.sign.Some? then [j.exponent.value.sign.value] else "")
           + j.exponent.value.digits
       else "")
  }

  function Show(j: Json): string {
    match j
    case True => "true"
    case False => "false"
    case Null => "null"
    case Number(_, _, _, _) => ShowNumber(j)
    case Str(units) => ShowString(units)
    case Array(body) => "[" + (ShowBody(body) + "]")
    case Object(body) => "{" + (ShowBody(body) + "}")
  }

  function ShowBody(b: Body): string {
    match b
    case Nothing(blank) => blank
    case Last(key, before, value, after) => ShowKey(key) + (before + (Show(value) + after))
    case More(key, before, value, after, rest) =>
      ShowKey(key) + (before + (Show(value) + (after + ("," + ShowBody(rest)))))
  }

  // ----- the scan over a printed value -----

  /** The state after a text the scan does not stop in. */
  function Feed(b: Brackets, st: Scan, s: string): Option<Scan>
    decreases |s|
  {
    if s == "" then Some(st)
    else if Stops(b, st, s[0]) then None
    else Feed(b, Fed(b, st, s[0]), s[1..])
  }

  lemma {:induction false} FeedSplits(b: Brackets, st: Scan, s: string, t: string)
    requires Feed(b, st, s).Some?
    ensures Feed(b, st, s + t) == Feed(b, Feed(b, st, s).value, t)
    ensures StopAt(b, st, s + t) == Later(StopAt(b, Feed(b, st, s).value, t), |s|)
    decreases |s|
  {
    if s == "" {
      assert s + t == t;
    } else {
      assert (s + t)[1..] == s[1..] + t;
      FeedSplits(b, Fed(b, st, s[0]), s[1..], t);
    }
  }

  predicate Known(b: Brackets) {
    b == BracketsFor('{') || b == BracketsFor('[')
  }

  /** Below the top level, scanning the text changes nothing and does not stop. */
  ghost predicate Neutral(b: Brackets, s: string) {
    forall d: int :: d >= 1 ==> Feed(b, Scan(d, false, false), s) == Some(Scan(d, false, false))
  }

  lemma NeutralJoins(b: Brackets, s: string, t: string)
    requires Neutral(b, s) && Neutral(b, t)
    ensures Neutral(b, s + t)
  {
    forall d: int | d >= 1
      ensures Feed(b, Scan(d, false, false), s + t) == Some(Scan(d, false, false))
    {
      FeedSplits(b, Scan(d, false, false), s, t);
    }
  }

  /** A character that is no quote and no bracket. */
  predicate Inert(c: char) {
    c != '"' && c != '{' && c != '}' && c != '[' && c != ']'
  }

  lemma {:induction false} InertIsNeutral(b: Brackets, s: string)
    requires Known(b) && forall i :: 0 <= i < |s| ==> Inert(s[i])
    ensures Neutral(b, s)
  {
    if s != "" {
      InertIsNeutral(b, s[1..]);
      forall d: int | d >= 1
        ensures Feed(b, Scan(d, false, false), s) == Some(Scan(d, false, false))
      {
        assert Feed(b, Scan(d, false, false), s[1..]) == Some(Scan(d, false, false));
      }
    }
  }

  lemma UnitStaysInString(b: Brackets, d: int, u: Unit)
    requires ValidUnit(u)
    ensures Feed(b, Scan(d, true, false), ShowUnit(u)) == Some(Scan(d, true, false))
  {
    var st, esc := Scan(d, true, false), Scan(d, true, true);
    match u {
      case Plain(c) =>
        assert [c][1..] == "";
      case Short(c) =>
        assert ['\\', c][1..] == [c];
        assert [c][1..] == "";
        assert Feed(b, esc, [c]) == Some(st);
      case Hex(a, x, y, z) =>
        assert ['\\', 'u', a, x, y, z][1..] == ['u', a, x, y, z];
        assert ['u', a, x, y, z][1..] == [a, x, y, z];
        HexStaysInString(b, d, [a, x, y, z]);
        assert Feed(b, esc, ['u', a, x, y, z]) == Some(st);
    }
  }

  lemma {:induction false} HexStaysInString(b: Brackets, d: int, s: string)
    requires forall i :: 0 <= i < |s| ==> IsHex(s[i])
    ensures Feed(b, Scan(d, true, false), s) == Some(Scan(d, true, false))
  {
    if s != "" {
      HexStaysInString(b, d, s[1..]);
    }
  }

  lemma {:induction false} UnitsStayInString(b: Brackets, d: int, us: seq<Unit>)
    requires ValidUnits(us)
    ensures Feed(b, Scan(d, true, false), ShowUnits(us)) == Some(Scan(d, true, false))
  {
    if us != [] {
      UnitStaysInString(b, d, us[0]);
      UnitsStayInString(b, d, us[1..]);
      FeedSplits(b, Scan(d, true, false), ShowUnit(us[0]), ShowUnits(us[1..]));
    }
  }

  /** Whatever brackets, quotes or escapes a string holds, it is neutral. */
  lemma StringIsNeutral(b: Brackets, us: seq<Unit>)
    requires Known(b) && ValidUnits(us)
    ensures Neutral(b, ShowString(us))
  {
    forall d: int | d >= 1
      ensures Feed(b, Scan(d, false, false), ShowString(us)) == Some(Scan(d, false, false))
    {
      UnitsStayInString(b, d, us);
      FeedSplits(b, Scan(d, true, false), ShowUnits(us), "\"");
      assert "\""[1..] == "";
      assert ShowString(us)[1..] == ShowUnits(us) + "\"";
    }
  }

  lemma KeyIsNeutral(b: Brackets, key: Option<Key>, keyed: bool)
    requires Known(b) && ValidKey(key, keyed)
    ensures Neutral(b, ShowKey(key))
  {
    if key.Some? {
      var l := key.value;
      InertIsNeutral(b, l.before);
      StringIsNeutral(b, l.name);
      InertIsNeutral(b, l.after + ":");
      NeutralJoins(b, ShowString(l.name), l.after + ":");
      NeutralJoins(b, l.before, ShowString(l.name) + (l.after + ":"));
    }
  }

  lemma NumberIsInert(j: Json)
    requires j.Number? && Valid(j)
    ensures forall i :: 0 <= i < |Show(j)| ==> Inert(Show(j)[i])
  {
    assert forall c :: IsDigit(c) ==> Inert(c);
  }

  /** Bracketing a neutral text by either kind of brackets gives a neutral text. */
  lemma BracketedIsNeutral(b: Brackets, inner: string, k: Brackets)
    requires Known(b) && Known(k) && Neutral(b, inner)
    ensures Neutral(b, [k.open] + (inner + [k.close]))
  {
    hide Fed, Stops, Known;
    var s := [k.open] + (inner + [k.close]);
    forall d: int | d >= 1
      ensures Feed(b, Scan(d, false, false), s) == Some(Scan(d, false, false))
    {
      var deeper := if k == b then d + 1 else d;
      BracketsMove(b, k, d);
      FeedFirst(b, Scan(d, false, false), s);
      assert s[1..] == inner + [k.close];
      FeedSplits(b, Scan(deeper, false, false), inner, [k.close]);
    }
  }

  lemma FeedFirst(b: Brackets, st: Scan, s: string)
    requires s != "" && !Stops(b, st, s[0])
    ensures Feed(b, st, s) == Feed(b, Fed(b, st, s[0]), s[1..])
  {
    hide Fed, Stops;
  }

  /** Below the top level, an opening and a closing bracket move the depth only if they are the counted ones. */
  lemma BracketsMove(b: Brackets, k: Brackets, d: int)
    requires Known(b) && Known(k) && d >= 1
    ensures var deeper := if k == b then d + 1 else d;
      && !Stops(b, Scan(d, false, false), k.open) && Fed(b, Scan(d, false, false), k.open) == Scan(deeper, false, false)
      && Feed(b, Scan(deeper, false, false), [k.close]) == Some(Scan(d, false, false))
  {
    assert [k.close][1..] == "";
  }

  /** A key, a value and what follows it are neutral when the value and what follows it are. */
  lemma EntryIsNeutral(b: Brackets, key: Option<Key>, keyed: bool, before: string, value: Json, after: string)
    requires Known(b) && ValidKey(key, keyed) && Blank(before)
    requires Neutral(b, Show(value)) && Neutral(b, after)
    ensures Neutral(b, ShowKey(key) + (before + (Show(value) + after)))
  {
    KeyIsNeutral(b, key, keyed);
    InertIsNeutral(b, before);
    NeutralJoins(b, Show(value), after);
    NeutralJoins(b, before, Show(value) + after);
    NeutralJoins(b, ShowKey(key), before + (Show(value) + after));
  }

  lemma {:induction false} ValueIsNeutral(b: Brackets, j: Json)
    requires Known(b) && Valid(j)
    ensures Neutral(b, Show(j))
    decreases j
  {
    match j {
      case Number(_, _, _, _) =>
        NumberIsInert(j);
        InertIsNeutral(b, Show(j));
      case Str(units) =>
        StringIsNeutral(b, units);
      case Array(body) =>
        BodyIsNeutral(b, body, false);
        BracketedIsNeutral(b, ShowBody(body), BracketsFor('['));
      case Object(body) =>
        BodyIsNeutral(b, body, true);
        BracketedIsNeutral(b, ShowBody(body), BracketsFor('{'));
      case _ =>
        InertIsNeutral(b, Show(j));
    }
  }

  lemma {:induction false} BodyIsNeutral(b: Brackets, body: Body, keyed: bool)
    requires Known(b) && ValidBody(body, keyed)
    ensures Neutral(b, ShowBody(body))
    decreases body
  {
    match body {
      case Nothing(blank) =>
        InertIsNeutral(b, blank);
      case Last(key, before, value, after) =>
        ValueIsNeutral(b, value);
        InertIsNeutral(b, after);
        EntryIsNeutral(b, key, keyed, before, value, after);
      case More(key, before, value, after, rest) =>
        ValueIsNeutral(b, value);
        BodyIsNeutral(b, rest, keyed);
        InertIsNeutral(b, after + ",");
        NeutralJoins(b, after + ",", ShowBody(rest));
        assert after + "," + ShowBody(rest) == after + ("," + ShowBody(rest));
        EntryIsNeutral(b, key, keyed, before, value, after + ("," + ShowBody(rest)));
    }
  }

  /** A printed object or array is scanned from its first character exactly to its last, whatever follows. */
  lemma ScanTakesWholeValue(j: Json, suffix: string)
    requires Valid(j) && (j.Array? || j.Object?)
    ensures Show(j) != "" && IsOpen(Show(j)[0])
    ensures StopAt(BracketsFor(Show(j)[0]), START, Show(j) + suffix) == Some(|Show(j)|)
  {
    hide ShowBody, ValidBody;
    var b := BracketsFor(Show(j)[0]);
    var inner := ShowBody(j.body);
    BodyIsNeutral(b, j.body, j.Object?);
    assert Show(j) + suffix == [b.open] + (inner + ([b.close] + suffix));
    BracketScan(b, inner, suffix);
  }

  /** From its opening bracket, a bracketed neutral text is scanned to its closing one. */
  lemma BracketScan(b: Brackets, inner: string, suffix: string)
    requires Known(b) && Neutral(b, inner)
    ensures StopAt(b, START, [b.open] + (inner + ([b.close] + suffix))) == Some(|inner| + 2)
  {
    hide Fed, Stops, Known, Feed;
    var one, tail := Scan(1, false, false), [b.close] + suffix;
    var s := [b.open] + (inner + tail);
    OuterBrackets(b);
    assert s[1..] == inner + tail;
    assert Feed(b, one, inner) == Some(one);
    FeedSplits(b, one, inner, tail);
    StopsFirst(b, one, tail);
    StopsLater(b, START, s);
  }

  lemma StopsFirst(b: Brackets, st: Scan, s: string)
    requires s != "" && Stops(b, st, s[0])
    ensures StopAt(b, st, s) == Some(1)
  {
  }

  lemma StopsLater(b: Brackets, st: Scan, s: string)
    requires s != "" && !Stops(b, st, s[0])
    ensures StopAt(b, st, s) == Later(StopAt(b, Fed(b, st, s[0]), s[1..]), 1)
  {
  }

  lemma OuterBrackets(b: Brackets)
    requires Known(b)
    ensures !Stops(b, START, b.open) && Fed(b, START, b.open) == Scan(1, false, false)
    ensures Stops(b, Scan(1, false, false), b.close)
  {
  }

  /**
   * The scan is exact: behind any prefix without an opening bracket, and before any suffix, it slices out exactly the
   * printed object or array.
   */
  lemma ScanExact(prefix: string, j: Json, suffix: string)
    requires forall i :: 0 <= i < |prefix| ==> !IsOpen(prefix[i])
    requires Valid(j) && (j.Array? || j.Object?)
    ensures JsonSlice(prefix + Show(j) + suffix) == Some(Show(j))
  {
    var s := prefix + Show(j) + suffix;
    ScanTakesWholeValue(j, suffix);
    assert s[|prefix|..] == Show(j) + suffix;
    assert s[|prefix|] == Show(j)[0];
    assert FirstOpen(s) == Some(|prefix|);
    assert s[|prefix|..|prefix| + |Show(j)|] == Show(j);
  }

  // ----- extract_json -----

  const FENCE := "```"

  function FindChar(s: string, c: char): (r: Option<nat>)
    ensures r.Some? ==> r.value < |s| && s[r.value] == c && forall i :: 0 <= i < r.value ==> s[i] != c
    ensures r.None? ==> c !in s
  {
    if s == "" then None
    else if s[0] == c then Some(0)
    else
      match FindChar(s[1..], c)
      case None => None
      case Some(n) => Some(n + 1)
  }

  /** The last place, at or before `at`, where the fence occurs. */
  function LastFence(s: string, at: int): (r: Option<nat>)
    requires at <= |s|
    ensures r.Some? ==> r.value <= at && FENCE <= s[r.value..] && forall i :: r.value < i <= at ==> !(FENCE <= s[i..])
    ensures r.None? ==> forall i :: 0 <= i <= at ==> !(FENCE <= s[i..])
    decreases at
  {
    if at < 0 then None
    else if FENCE <= s[at..] then Some(at)
    else LastFence(s, at - 1)
  }

  function StripCodeFence(s: string): string {
    var t := Trim(s);
    if !(FENCE <= t) then s
    else
      var rest := t[3..];
      var line := FindChar(rest, '\n');
      var afterLang := if line.Some? then rest[line.value + 1..] else rest;
      var end := LastFence(afterLang, |afterLang|);
      if end.Some? then Trim(afterLang[..end.value]) else Trim(afterLang)
  }

  function ExtractJson<V>(text: string, parse: string -> Option<V>): Option<V> {
    var trimmed := Trim(text);
    var whole := parse(trimmed);
    if whole.Some? then whole
    else
      var unfenced := StripCodeFence(trimmed);
      var inner := if unfenced != trimmed then parse(Trim(unfenced)) else None;
      if inner.Some? then inner
      else
        var first := Parsed(JsonSlice(unfenced), parse);
        if first.Some? then first else Parsed(JsonSlice(trimmed), parse)
  }

  lemma NumberIsTight(j: Json)
    requires j.Number? && Valid(j)
    ensures Tight(Show(j)) && Show(j)[0] != '`'
  {
    assert forall c :: IsDigit(c) ==> !IsSpace(c) && c != '`';
    var s := Show(j);
    if j.exponent.Some? {
      var digits := j.exponent.value.digits;
      assert s[|s| - 1] == digits[|digits| - 1];
    } else if j.fraction.Some? {
      assert s[|s| - 1] == j.fraction.value[|j.fraction.value| - 1];
    } else {
      assert s[|s| - 1] == j.whole[|j.whole| - 1];
    }
    assert s[0] == if j.minus then '-' else j.whole[0];
  }

  /** A printed value neither starts nor ends with whitespace, and does not start with a backtick. */
  lemma ValueIsTight(j: Json)
    requires Valid(j)
    ensures Tight(Show(j)) && Show(j)[0] != '`'
  {
    if j.Number? {
      NumberIsTight(j);
    }
  }

  lemma TrimEndKeeps(s: string, t: string)
    requires s != "" && !IsSpace(s[|s| - 1])
    ensures TrimEnd(s + t) == s + TrimEnd(t)
  {
    hide TrimEnd, IsSpace;
    var b := TrimEndSplits(t);
    assert s + t == s + TrimEnd(t) + b;
    TrimEndPeels(s + TrimEnd(t), b);
    LastOfBoth(s, TrimEnd(t));
    TrimEndStays(s + TrimEnd(t));
  }

  lemma LastOfBoth(s: string, t: string)
    requires s != ""
    ensures (s + t)[|s + t| - 1] == if t == "" then s[|s| - 1] else t[|t| - 1]
  {
  }

  lemma TrimEndStays(s: string)
    requires s != "" && !IsSpace(s[|s| - 1])
    ensures TrimEnd(s) == s
  {
    hide IsSpace;
  }

  /** A fenced text: the fence, a language word, a newline, the body, the closing fence and a tail. */
  function Fenced(lang: string, body: string, tail: string): string {
    FENCE + (lang + ("\n" + (body + (FENCE + tail))))
  }

  lemma {:induction false} TrimKeepsHead(lead: string, head: string, tail: string)
    requires AllSpace(lead) && Tight(head)
    ensures Trim(lead + (head + tail)) == head + TrimEnd(tail)
  {
    TrimStartPeels(lead, head + tail);
    assert TrimStart(head + tail) == head + tail;
    TrimEndKeeps(head, tail);
  }

  lemma TrimFenced(lead: string, lang: string, body: string, tail: string)
    requires AllSpace(lead)
    ensures Trim(lead + Fenced(lang, body, tail)) == Fenced(lang, body, TrimEnd(tail))
  {
    hide Trim, TrimEnd, Fenced;
    var head := Fenced(lang, body, "");
    FencedEnds(lang, body, tail);
    FencedEnds(lang, body, TrimEnd(tail));
    TrimKeepsHead(lead, head, tail);
  }

  /** A fenced text is tight up to its tail. */
  lemma FencedEnds(lang: string, body: string, tail: string)
    ensures Fenced(lang, body, tail) == Fenced(lang, body, "") + tail && Tight(Fenced(lang, body, ""))
  {
    var head := Fenced(lang, body, "");
    assert head[0] == '`' && head[|head| - 1] == '`';
  }

  /** With no newline in the language word and no backtick in the tail, the fence strips down to the trimmed body. */
  lemma FenceStrips(lang: string, body: string, tail: string)
    requires '\n' !in lang && '`' !in tail
    requires Trim(Fenced(lang, body, tail)) == Fenced(lang, body, tail)
    ensures StripCodeFence(Fenced(lang, body, tail)) == Trim(body)
  {
    hide Trim, LastFence, FindChar;
    var afterLang := body + (FENCE + tail);
    var rest := lang + ("\n" + afterLang);
    var t := Fenced(lang, body, tail);
    assert t == FENCE + rest && t[3..] == rest && FENCE <= t;
    FindAfter(lang, afterLang);
    assert rest[|lang| + 1..] == afterLang;
    LastFenceCloses(body, tail);
    assert afterLang[..|body|] == body;
  }

  lemma FindAfter(lang: string, after: string)
    requires '\n' !in lang
    ensures FindChar(lang + ("\n" + after), '\n') == Some(|lang|)
  {
    var s := lang + ("\n" + after);
    assert s[|lang|] == '\n';
    assert forall i :: 0 <= i < |lang| ==> s[i] == lang[i];
  }

  lemma LastFenceCloses(body: string, tail: string)
    requires '`' !in tail
    ensures LastFence(body + (FENCE + tail), |body + (FENCE + tail)|) == Some(|body|)
  {
    var s := body + (FENCE + tail);
    assert s[|body|..] == FENCE + tail;
    forall i | |body| < i <= |s|
      ensures !(FENCE <= s[i..])
    {
      if |s[i..]| >= 3 {
        assert s[i..][2] == tail[i - |body| - 1];
      }
    }
  }

  /**
   * A fenced value survives even when its own strings hold backtick fences: if the parser takes the printed value, and
   * takes nothing that starts with a backtick, then it is the printed value that it is given.
   */
  lemma FencedValueSurvives<V>(
    lead: string, lang: string, before: string, j: Json, after: string, tail: string, parse: string -> Option<V>)
    requires AllSpace(lead) && '\n' !in lang && AllSpace(before) && AllSpace(after) && '`' !in tail
    requires Valid(j) && parse(Show(j)).Some?
    requires forall s: string :: s != "" && s[0] == '`' ==> parse(s).None?
    ensures ExtractJson(lead + Fenced(lang, before + Show(j) + after, tail), parse) == parse(Show(j))
  {
    hide Show, Valid, LastFence, FindChar, StripCodeFence, TrimStart, TrimEnd;
    var body := before + Show(j) + after;
    ValueIsTight(j);
    TrimPeels(before, Show(j), after);
    TrimFenced(lead, lang, body, tail);
    var trimmed := Fenced(lang, body, TrimEnd(tail));
    assert trimmed[0] == '`';
    TrimIdempotent(lead + Fenced(lang, body, tail));
    var b := TrimEndSplits(tail);
    FenceStrips(lang, body, TrimEnd(tail));
    assert "" + Show(j) + "" == Show(j);
    TrimPeels("", Show(j), "");
  }

  lemma TightJoins(core: string, v: string)
    requires Tight(v) && (core == "" || !IsSpace(core[0]))
    ensures Tight(core + v)
  {
  }

  /** Trimming prose around a value trims only its two ends. */
  lemma TrimProse(lead: string, core: string, v: string, suffix: string)
    requires AllSpace(lead) && Tight(v) && (core == "" || !IsSpace(core[0]))
    ensures Trim(lead + core + v + suffix) == core + v + TrimEnd(suffix)
  {
    hide TrimStart, TrimEnd, Trim, Tight;
    TightJoins(core, v);
    TrimKeepsHead(lead, core + v, suffix);
    assert lead + core + v + suffix == lead + ((core + v) + suffix);
  }

  lemma NoFenceInFront(core: string, v: string, end: string)
    requires !(FENCE <= core) && v != "" && v[0] != '`'
    ensures !(FENCE <= core + v + end)
  {
    var t := core + v + end;
    assert t[|core|] == v[0];
    assert |core| >= 3 ==> t[..3] == core[..3];
  }

  /** A printed object or array inside prose is found, if the whole answer is no JSON and no fence opens it. */
  lemma ProseValueSurvives<V>(prefix: string, j: Json, suffix: string, parse: string -> Option<V>)
    requires forall i :: 0 <= i < |prefix| ==> !IsOpen(prefix[i])
    requires Valid(j) && (j.Array? || j.Object?)
    requires !(FENCE <= TrimStart(prefix)) && parse(Trim(prefix + Show(j) + suffix)).None?
    ensures ExtractJson(prefix + Show(j) + suffix, parse) == parse(Show(j))
  {
    hide Show, Valid, TrimStart, TrimEnd, Trim, JsonSlice, StripCodeFence, FENCE;
    var v := Show(j);
    var text := prefix + v + suffix;
    ValueIsTight(j);
    var lead := TrimStartSplits(prefix);
    var core, end := TrimStart(prefix), TrimEnd(suffix);
    TrimProse(lead, core, v, suffix);
    assert Trim(text) == core + v + end;
    TrimIdempotent(text);
    NoFenceInFront(core, v, end);
    NothingStripped(core + v + end);
    assert forall i :: 0 <= i < |core| ==> core[i] == prefix[|lead| + i];
    ScanExact(core, j, end);
  }

  lemma NothingStripped(s: string)
    requires Trim(s) == s && !(FENCE <= s)
    ensures StripCodeFence(s) == s
  {
  }

  /** An answer that is JSON but for the spaces around it is that value; nothing else is tried. */
  lemma WholeAnswerIsTaken<V>(before: string, s: string, after: string, parse: string -> Option<V>)
    requires AllSpace(before) && AllSpace(after) && Tight(s) && parse(s).Some?
    ensures ExtractJson(before + s + after, parse) == parse(s)
  {
    hide Trim, Tight, AllSpace, JsonSlice, StripCodeFence;
    TrimPeels(before, s, after);
  }

  /** A fence that is never closed, as in an answer cut short, strips to what follows its first line. */
  lemma UnclosedFenceStrips(lang: string, body: string)
    requires '\n' !in lang && forall i :: 0 <= i <= |body| ==> !(FENCE <= body[i..])
    requires Trim(FENCE + (lang + ("\n" + body))) == FENCE + (lang + ("\n" + body))
    ensures StripCodeFence(FENCE + (lang + ("\n" + body))) == Trim(body)
  {
    hide Trim, LastFence, FindChar;
    var rest := lang + ("\n" + body);
    var t := FENCE + rest;
    assert t[3..] == rest && FENCE <= t;
    FindAfter(lang, body);
    assert rest[|lang| + 1..] == body;
  }

  /** A fence opened and closed on one line strips to what stands between. */
  lemma OneLineFenceStrips(body: string, tail: string)
    requires '\n' !in body && '\n' !in tail && '`' !in tail
    requires Trim(FENCE + (body + (FENCE + tail))) == FENCE + (body + (FENCE + tail))
    ensures StripCodeFence(FENCE + (body + (FENCE + tail))) == Trim(body)
  {
    hide Trim, LastFence, FindChar;
    var rest := body + (FENCE + tail);
    var t := FENCE + rest;
    assert t[3..] == rest && FENCE <= t;
    NewlineFree(body, tail);
    LastFenceCloses(body, tail);
    assert rest[..|body|] == body;
  }

  lemma NewlineFree(body: string, tail: string)
    requires '\n' !in body && '\n' !in tail
    ensures FindChar(body + (FENCE + tail), '\n') == None
  {
    hide FindChar;
    assert '\n' !in FENCE;
  }

  /** A printed object or array in prose inside a fence is found as well. */
  lemma FencedProseSurvives<V>(
    lead: string, lang: string, prefix: string, j: Json, suffix: string, tail: string, parse: string -> Option<V>)
    requires AllSpace(lead) && '\n' !in lang && '`' !in tail
    requires forall i :: 0 <= i < |prefix| ==> !IsOpen(prefix[i])
    requires Valid(j) && (j.Array? || j.Object?) && parse(Show(j)).Some?
    requires parse(Trim(prefix + Show(j) + suffix)).None?
    requires forall s: string :: s != "" && s[0] == '`' ==> parse(s).None?
    ensures ExtractJson(lead + Fenced(lang, prefix + Show(j) + suffix, tail), parse) == parse(Show(j))
  {
    hide Show, Valid, TrimStart, TrimEnd, Trim, JsonSlice, StripCodeFence, IsOpen;
    var v := Show(j);
    var body := prefix + v + suffix;
    var trimmed := Fenced(lang, body, TrimEnd(tail));
    TrimFenced(lead, lang, body, tail);
    TrimIdempotent(lead + Fenced(lang, body, tail));
    NoTicks(tail);
    FenceStrips(lang, body, TrimEnd(tail));
    assert trimmed[0] == '`';
    TrimIdempotent(body);
    ValueIsTight(j);
    var start := TrimStartSplits(prefix);
    var core := TrimStart(prefix);
    TrimProse(start, core, v, suffix);
    assert forall i :: 0 <= i < |core| ==> core[i] == prefix[|start| + i];
    ScanExact(core, j, TrimEnd(suffix));
  }

  lemma NoTicks(tail: string)
    requires '`' !in tail
    ensures '`' !in TrimEnd(tail)
  {
    var b := TrimEndSplits(tail);
  }

  /** And one on the line of the fence itself is found last, when nothing behind that line is JSON. */
  lemma FenceLineIsTriedLast<V>(prefix: string, j: Json, rest: string, body: string, parse: string -> Option<V>)
    requires forall i :: 0 <= i < |prefix| ==> !IsOpen(prefix[i])
    requires Valid(j) && (j.Array? || j.Object?) && '\n' !in prefix + Show(j) + rest
    requires (forall i :: 0 <= i < |body| ==> !IsOpen(body[i])) && parse(Trim(body)).None?
    requires forall s: string :: s != "" && s[0] == '`' ==> parse(s).None?
    ensures ExtractJson(Fenced(prefix + Show(j) + rest, body, ""), parse) == parse(Show(j))
  {
    hide Show, Valid, TrimStart, TrimEnd, Trim, StripCodeFence, StopAt;
    var v := Show(j);
    var lang := prefix + v + rest;
    var t := Fenced(lang, body, "");
    NothingAround(lang, body);
    FenceStrips(lang, body, "");
    assert t[0] == '`';
    TrimIdempotent(body);
    NothingOpensIn(body);
    var front, back := FENCE + prefix, rest + ("\n" + (body + FENCE));
    assert t == front + v + back;
    assert forall i :: 0 <= i < |front| ==> !IsOpen(front[i]);
    ScanExact(front, j, back);
  }

  lemma NothingAround(lang: string, body: string)
    ensures Trim(Fenced(lang, body, "")) == Fenced(lang, body, "")
  {
    hide Trim, Fenced;
    TrimFenced("", lang, body, "");
    assert "" + Fenced(lang, body, "") == Fenced(lang, body, "");
  }

  lemma NothingOpensIn(body: string)
    requires forall i :: 0 <= i < |body| ==> !IsOpen(body[i])
    ensures JsonSlice(Trim(body)) == None
  {
    hide Trim, StopAt, IsOpen;
    var a, b := TrimSplits(body);
    assert forall i :: 0 <= i < |Trim(body)| ==> Trim(body)[i] == body[|a| + i];
  }
}
