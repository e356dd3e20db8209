/** The cumulative ledger of files a conversation touched (src/context.rs). */
module FileLedger {
  import opened Prelude
  import opened Text
  import opened Messages

  const FILE_LEDGER_CAP: nat := 20

  predicate IsReadTool(name: string) {
    name == "read_file" || name == "grep" || name == "find_files"
  }

  predicate IsWriteTool(name: string) {
    name == "write_file" || name == "edit_file"
  }

  // ----- ordered sets of strings -----

  ghost predicate Ascending(xs: seq<string>) {
    forall i, j :: 0 <= i < j < |xs| ==> Less(xs[i], xs[j])
  }

  /** Insertion into an ordered set. */
  function Insert(xs: seq<string>, x: string): (r: seq<string>)
    ensures forall y :: y in r <==> y == x || y in xs
  {
    if xs == [] then [x]
    else if x == xs[0] then xs
    else if Less(x, xs[0]) then [x] + xs
    else
      assert xs == [xs[0]] + xs[1..];
      [xs[0]] + Insert(xs[1..], x)
  }

  lemma {:induction false} InsertAscends(xs: seq<string>, x: string)
    requires Ascending(xs)
    ensures Ascending(Insert(xs, x))
  {
    if xs != [] && x != xs[0] {
      if Less(x, xs[0]) {
        forall j | 0 < j < |xs|
          ensures Less(x, xs[j])
        {
          LessTransitive(x, xs[0], xs[j]);
        }
      } else {
        LessTotal(x, xs[0]);
        InsertAscends(xs[1..], x);
        var rest := Insert(xs[1..], x);
        forall j | 0 <= j < |rest|
          ensures Less(xs[0], rest[j])
        {
          assert rest[j] in rest;
        }
      }
    }
  }

  function InsertAll(xs: seq<string>, more: seq<string>): (r: seq<string>)
    ensures forall y :: y in r <==> y in xs || y in more
    decreases |more|
  {
    if more == [] then xs
    else
      assert more == [more[0]] + more[1..];
      InsertAll(Insert(xs, more[0]), more[1..])
  }

  lemma {:induction false} InsertAllAscends(xs: seq<string>, more: seq<string>)
    requires Ascending(xs)
    ensures Ascending(InsertAll(xs, more))
    decreases |more|
  {
    if more != [] {
      InsertAscends(xs, more[0]);
      InsertAllAscends(Insert(xs, more[0]), more[1..]);
    }
  }

  lemma AscendingHasNoRepeats(xs: seq<string>)
    requires Ascending(xs)
    ensures forall i, j :: 0 <= i < j < |xs| ==> xs[i] != xs[j]
  {
    forall i, j | 0 <= i < j < |xs|
      ensures xs[i] != xs[j]
    {
      LessIrreflexive(xs[i]);
    }
  }

  // ----- collecting -----

  /** Two ordered sets; a path that was read and then edited is in both. */
  datatype Ledger = Ledger(read: seq<string>, modified: seq<string>)

  const NO_FILES := Ledger([], [])

  ghost predicate Ordered(l: Ledger) {
    Ascending(l.read) && Ascending(l.modified)
  }

  predicate Reads(m: Message) {
    m.ToolCall? && m.args.path.Some? && IsReadTool(m.name)
  }

  predicate Writes(m: Message) {
    m.ToolCall? && m.args.path.Some? && IsWriteTool(m.name)
  }

  function Touch(l: Ledger, m: Message): Ledger {
    if Reads(m) then l.(read := Insert(l.read, m.args.path.value))
    else if Writes(m) then l.(modified := Insert(l.modified, m.args.path.value))
    else l
  }

  function TouchAll(l: Ledger, ms: seq<Message>): Ledger {
    if ms == [] then l else Touch(TouchAll(l, ms[..|ms| - 1]), ms[|ms| - 1])
  }

  /** `collect_file_ops`: add the paths of one region's tool calls to what was collected before. */
  method CollectFileOps(ms: seq<Message>, before: Ledger) returns (l: Ledger)
    ensures l == TouchAll(before, ms)
  {
    l := before;
    for i := 0 to |ms|
      invariant l == TouchAll(before, ms[..i])
    {
      assert ms[..i + 1][..i] == ms[..i];
      match ms[i] {
        case ToolCall(_, name, args) =>
          if args.path.Some? {
            if IsReadTool(name) {
              l := l.(read := Insert(l.read, args.path.value));
            } else if IsWriteTool(name) {
              l := l.(modified := Insert(l.modified, args.path.value));
            }
          }
        case _ =>
      }
    }
    assert ms[..|ms|] == ms;
  }

  /** Folding region after region is the same as one pass over the regions joined. */
  lemma {:induction false} TouchAllJoins(l: Ledger, a: seq<Message>, b: seq<Message>)
    ensures TouchAll(TouchAll(l, a), b) == TouchAll(l, a + b)
    decreases |b|
  {
    if b == [] {
      assert a + b == a;
    } else {
      assert (a + b)[..|a + b| - 1] == a + b[..|b| - 1];
      TouchAllJoins(l, a, b[..|b| - 1]);
    }
  }

  /** One pass from nothing collects exactly the paths of the read calls and of the write calls. */
  lemma {:induction false} TouchAllCollects(ms: seq<Message>)
    ensures Ordered(TouchAll(NO_FILES, ms))
    ensures forall p :: p in TouchAll(NO_FILES, ms).read <==> exists m :: m in ms && Reads(m) && m.args.path.value == p
    ensures forall p ::
              p in TouchAll(NO_FILES, ms).modified <==> exists m :: m in ms && Writes(m) && m.args.path.value == p
    decreases |ms|
  {
    if ms != [] {
      var before, last := ms[..|ms| - 1], ms[|ms| - 1];
      TouchAllCollects(before);
      assert ms == before + [last];
      var l := TouchAll(NO_FILES, before);
      if Reads(last) {
        InsertAscends(l.read, last.args.path.value);
      } else if Writes(last) {
        InsertAscends(l.modified, last.args.path.value);
      }
    }
  }

  // ----- rendering -----

  /** Every path of either list once, in order. */
  function Paths(l: Ledger): seq<string> {
    InsertAll(InsertAll([], l.read), l.modified)
  }

  function How(l: Ledger, path: string): string {
    if path in l.read && path in l.modified then "read, modified"
    else if path in l.modified then "modified"
    else "read"
  }

  function Entry(l: Ledger, path: string): string {
    "- " + path + " (" + How(l, path) + ")\n"
  }

  /** The lines of the first `k` paths. */
  function Entries(l: Ledger, paths: seq<string>, k: nat): string
    requires k <= |paths|
  {
    if k == 0 then "" else Entries(l, paths, k - 1) + Entry(l, paths[k - 1])
  }

  function Listed(l: Ledger): (paths: seq<string>)
    ensures |paths| == if |Paths(l)| <= FILE_LEDGER_CAP then |Paths(l)| else FILE_LEDGER_CAP
  {
    Paths(l)[..if |Paths(l)| <= FILE_LEDGER_CAP then |Paths(l)| else FILE_LEDGER_CAP]
  }

  function Elision(l: Ledger): string {
    if |Paths(l)| <= FILE_LEDGER_CAP then ""
    else "[... " + Decimal(|Paths(l)| - FILE_LEDGER_CAP) + " more files elided ...]\n"
  }

  const LEDGER_HEADER := "Files touched so far (cumulative across compactions):\n"

  function Render(l: Ledger): string {
    LEDGER_HEADER + Entries(l, Paths(l), |Listed(l)|) + Elision(l)
  }

  /** `render_file_ledger`. */
  method RenderFileLedger(l: Ledger) returns (out: string)
    ensures out == Render(l)
  {
    hide Entry, Elision, Paths;
    var paths := Paths(l);
    var total := |paths|;
    var lines := "";
    var shown := if total <= FILE_LEDGER_CAP then total else FILE_LEDGER_CAP;
    for i := 0 to shown
      invariant lines == Entries(l, paths, i)
    {
      lines := lines + Entry(l, paths[i]);
    }
    out := LEDGER_HEADER + lines + Elision(l);
  }

  /**
   * The ledger lists the least min(20, total) of the distinct paths, each once, and the elided count parses back to
   * the rest.
   */
  lemma LedgerIsExact(l: Ledger)
    ensures Ascending(Paths(l)) && forall p :: p in Paths(l) <==> p in l.read || p in l.modified
    ensures |Paths(l)| == |(set p | p in l.read + l.modified)|
    ensures Listed(l) <= Paths(l) && forall i, j :: 0 <= i < j < |Listed(l)| ==> Listed(l)[i] != Listed(l)[j]
    ensures |Paths(l)| > FILE_LEDGER_CAP ==>
              DigitsValue(Decimal(|Paths(l)| - FILE_LEDGER_CAP)) == Some(|Paths(l)| - |Listed(l)|)
  {
    InsertAllAscends([], l.read);
    InsertAllAscends(InsertAll([], l.read), l.modified);
    AscendingHasNoRepeats(Paths(l));
    DistinctCount(Paths(l));
    assert (set p | p in Paths(l)) == (set p | p in l.read + l.modified);
    if |Paths(l)| > FILE_LEDGER_CAP {
      DecimalDigits(|Paths(l)| - FILE_LEDGER_CAP);
    }
  }

  lemma {:induction false} DistinctCount(xs: seq<string>)
    requires forall i, j :: 0 <= i < j < |xs| ==> xs[i] != xs[j]
    ensures |(set x | x in xs)| == |xs|
    decreases |xs|
  {
    if xs != [] {
      var before, last := xs[..|xs| - 1], xs[|xs| - 1];
      DistinctCount(before);
      assert xs == before + [last];
      assert (set x | x in xs) == (set x | x in before) + {last};
    }
  }

  /**
   * The rendered text shows every listed path with how it was touched, and ends with the count of those it leaves
   * out.
   */
  lemma RenderShows(l: Ledger, i: nat) returns (before: string, after: string)
    requires i < |Listed(l)|
    ensures Render(l) == before + ("- " + Listed(l)[i] + " (" + How(l, Listed(l)[i]) + ")\n") + after
    ensures |Paths(l)| <= FILE_LEDGER_CAP ==> i == |Listed(l)| - 1 ==> after == ""
    ensures |Paths(l)| > FILE_LEDGER_CAP ==> i == FILE_LEDGER_CAP - 1 ==>
              after == "[... " + Decimal(|Paths(l)| - FILE_LEDGER_CAP) + " more files elided ...]\n"
  {
    hide How, Paths;
    var more := EntriesShow(l, Paths(l), |Listed(l)|, i);
    before, after := LEDGER_HEADER + Entries(l, Paths(l), i), more + Elision(l);
    assert Listed(l)[i] == Paths(l)[i];
  }

  lemma {:induction false} EntriesShow(l: Ledger, paths: seq<string>, k: nat, i: nat) returns (more: string)
    requires i < k <= |paths|
    ensures Entries(l, paths, k) == Entries(l, paths, i) + Entry(l, paths[i]) + more
    ensures i == k - 1 ==> more == ""
    decreases k
  {
    hide Entry;
    var last := Entry(l, paths[k - 1]);
    assert Entries(l, paths, k) == Entries(l, paths, k - 1) + last;
    if i == k - 1 {
      more := "";
      assert Entries(l, paths, i) + last + more == Entries(l, paths, i) + last;
    } else {
      var less := EntriesShow(l, paths, k - 1, i);
      more := less + last;
      Regroup(Entries(l, paths, i) + Entry(l, paths[i]), less, last);
    }
  }

  /** Which tools read a file and which write one. */
  lemma ToolsAreTold(name: string, id: string, text: string, path: string)
    ensures name in {"read_file", "grep", "find_files"} ==>
              Touch(NO_FILES, ToolCall(id, name, Args(text, Some(path)))) == Ledger([path], [])
    ensures name in {"write_file", "edit_file"} ==>
              Touch(NO_FILES, ToolCall(id, name, Args(text, Some(path)))) == Ledger([], [path])
    ensures name !in {"read_file", "grep", "find_files", "write_file", "edit_file"} ==>
              Touch(NO_FILES, ToolCall(id, name, Args(text, Some(path)))) == NO_FILES
    ensures Touch(NO_FILES, ToolCall(id, name, Args(text, None))) == NO_FILES
  {
  }

  /** How a path is told: by the lists that hold it. */
  lemma HowIsTold(l: Ledger, path: string)
    ensures path in l.read && path in l.modified ==> How(l, path) == "read, modified"
    ensures path in l.read && path !in l.modified ==> How(l, path) == "read"
    ensures path !in l.read && path in l.modified ==> How(l, path) == "modified"
  {
  }

  /** Up to twenty paths are listed. */
  lemma TwentyAreListed(l: Ledger)
    ensures |Paths(l)| <= 20 ==> Listed(l) == Paths(l)
    ensures |Paths(l)| > 20 ==> Listed(l) == Paths(l)[..20]
  {
    hide Paths;
  }
}
