/** Tool output as a Markdown code block (tool_logs.py), and the parser it has to survive: fenced code
    blocks as section 4.5 of the CommonMark Spec defines them for backtick fences. */
module ToolLogs {
  import opened Wrappers
  import opened Strings
  import S = SandboxFiles

  // ---- Cleaning and bounding -------------------------------------------------------------------

  const ESCAPE: char := 27 as char

  predicate Between(c: char, low: int, high: int) {
    low <= c as int <= high
  }

  function SkipClass(s: string, i: nat, low: int, high: int): (j: nat)
    requires i <= |s|
    ensures i <= j <= |s|
    decreases |s| - i
  {
    if i < |s| && Between(s[i], low, high) then SkipClass(s, i + 1, low, high) else i
  }

  /** The length of the terminal escape sequence at the front, or 0. */
  function EscapeLength(s: string): (n: nat)
    ensures n <= |s|
  {
    if |s| < 2 || s[0] != ESCAPE then 0
    else if Between(s[1], 0x40, 0x5A) || Between(s[1], 0x5C, 0x5F) then 2
    else if s[1] != '[' then 0
    else
      var final := SkipClass(s, SkipClass(s, 2, 0x30, 0x3F), 0x20, 0x2F);
      if final < |s| && Between(s[final], 0x40, 0x7E) then final + 1 else 0
  }

  function WithoutEscapes(s: string): string
    decreases |s|
  {
    if s == "" then ""
    else if EscapeLength(s) > 0 then WithoutEscapes(s[EscapeLength(s)..])
    else [s[0]] + WithoutEscapes(s[1..])
  }

  /** Line ends become newlines. */
  function UnixLines(s: string): string
    decreases |s|
  {
    if s == "" then ""
    else if s[0] == '\r' then "\n" + UnixLines(if |s| > 1 && s[1] == '\n' then s[2..] else s[1..])
    else [s[0]] + UnixLines(s[1..])
  }

  predicate Visible(c: char) {
    c == '\n' || c == '\t' || c as int >= 32
  }

  function OnlyVisible(s: string): (r: string)
    ensures forall c :: c in r ==> Visible(c)
  {
    if s == "" then ""
    else if Visible(s[0]) then [s[0]] + OnlyVisible(s[1..])
    else OnlyVisible(s[1..])
  }

  predicate IsNewline(c: char) {
    c == '\n'
  }

  function Printable(value: string): (r: string)
    ensures forall c :: c in r ==> Visible(c)
  {
    OnlyVisible(UnixLines(WithoutEscapes(value)))
  }

  function Clean(value: string): (r: string)
    ensures forall c :: c in r ==> Visible(c)
  {
    Stripped(Printable(value), IsNewline)
  }

  // ---- What cleaning keeps ----------------------------------------------------------------------

  /** No terminal sequence reaches over a control character. */
  lemma {:induction false} ClassStops(s: string, c: char, rest: string, i: nat, low: int, high: int)
    requires i <= |s| && (c as int) < 0x20 <= low
    ensures SkipClass(s + [c] + rest, i, low, high) == SkipClass(s, i, low, high)
    decreases |s| - i
  {
    if i < |s| {
      ClassStops(s, c, rest, i + 1, low, high);
    }
  }

  lemma EscapeStops(s: string, c: char, rest: string)
    requires s != "" && (c as int) < 0x20
    ensures EscapeLength(s + [c] + rest) == EscapeLength(s)
  {
    if |s| >= 2 && s[0] == ESCAPE && s[1] == '[' {
      ClassStops(s, c, rest, 2, 0x30, 0x3F);
      ClassStops(s, c, rest, SkipClass(s, 2, 0x30, 0x3F), 0x20, 0x2F);
    }
  }

  /** A string is stripped of its terminal sequences before a control character and from there on. */
  lemma {:induction false} SplitEscapes(s: string, c: char, rest: string)
    requires (c as int) < 0x20
    ensures WithoutEscapes(s + [c] + rest) == WithoutEscapes(s) + WithoutEscapes([c] + rest)
    decreases |s|
  {
    if s == "" {
      assert s + [c] + rest == [c] + rest;
    } else {
      var n := EscapeLength(s);
      var next := if n > 0 then n else 1;
      EscapeStops(s, c, rest);
      assert (s + [c] + rest)[next..] == s[next..] + [c] + rest;
      SplitEscapes(s[next..], c, rest);
      hide EscapeLength;
      assert [s[0]] + (WithoutEscapes(s[1..]) + WithoutEscapes([c] + rest))
          == ([s[0]] + WithoutEscapes(s[1..])) + WithoutEscapes([c] + rest);
    }
  }

  lemma NoLines()
    ensures UnixLines("") == ""
  {
  }

  function LineStep(s: string): nat {
    if |s| > 1 && s[0] == '\r' && s[1] == '\n' then 2 else 1
  }

  lemma LineStepped(s: string)
    requires s != ""
    ensures UnixLines(s) == [if s[0] == '\r' then '\n' else s[0]] + UnixLines(s[LineStep(s)..])
  {
  }

  lemma {:induction false} SplitLines(s: string, t: string)
    requires s == "" || t == "" || s[|s| - 1] != '\r' || t[0] != '\n'
    ensures UnixLines(s + t) == UnixLines(s) + UnixLines(t)
    decreases |s|
  {
    hide UnixLines;
    if s == "" {
      NoLines();
      assert s + t == t;
    } else {
      var next := LineStep(s);
      LineStepped(s);
      LineStepped(s + t);
      assert (s + t)[next..] == s[next..] + t;
      SplitLines(s[next..], t);
    }
  }

  lemma {:induction false} SplitVisible(s: string, t: string)
    ensures OnlyVisible(s + t) == OnlyVisible(s) + OnlyVisible(t)
  {
    if s == "" {
      assert s + t == t;
    } else {
      assert (s + t)[1..] == s[1..] + t;
      SplitVisible(s[1..], t);
    }
  }

  /** Ordinary text is kept character by character. */
  lemma PrintableKept(value: string)
    requires forall i :: 0 <= i < |value| ==> value[i] == '\n' || value[i] == '\t' || value[i] as int >= 32
    ensures Printable(value) == value
  {
    NothingToRemove(value);
  }

  /** A carriage return with a newline after it is one newline. */
  lemma CrLfIsNewline(s: string, t: string)
    ensures Printable(s + "\r\n" + t) == Printable(s) + "\n" + Printable(t)
  {
    var u, v := WithoutEscapes(s), WithoutEscapes(t);
    assert s + "\r\n" + t == s + ['\r'] + ("\n" + t);
    SplitEscapes(s, '\r', "\n" + t);
    assert (['\r'] + ("\n" + t))[1..] == "\n" + t && ("\n" + t)[1..] == t;
    assert WithoutEscapes(['\r'] + ("\n" + t)) == "\r\n" + v;
    SplitLines(u, "\r\n" + v);
    assert ("\r\n" + v)[2..] == v;
    Joins(u, v);
  }

  /** So is one without. */
  lemma CrIsNewline(s: string, t: string)
    requires t == "" || (t[0] != '\n' && t[0] != ESCAPE)
    ensures Printable(s + "\r" + t) == Printable(s) + "\n" + Printable(t)
  {
    var u, v := WithoutEscapes(s), WithoutEscapes(t);
    assert s + "\r" + t == s + ['\r'] + t;
    SplitEscapes(s, '\r', t);
    assert (['\r'] + t)[1..] == t;
    assert WithoutEscapes(['\r'] + t) == "\r" + v;
    SplitLines(u, "\r" + v);
    assert ("\r" + v)[1..] == v;
    assert UnixLines("\r" + v) == "\n" + UnixLines(v);
    Joins(u, v);
  }

  lemma Joins(u: string, v: string)
    ensures OnlyVisible(UnixLines(u) + ("\n" + UnixLines(v)))
            == OnlyVisible(UnixLines(u)) + "\n" + OnlyVisible(UnixLines(v))
  {
    SplitVisible(UnixLines(u), "\n" + UnixLines(v));
    assert ("\n" + UnixLines(v))[1..] == UnixLines(v);
    assert OnlyVisible("\n" + UnixLines(v)) == "\n" + OnlyVisible(UnixLines(v));
  }

  /** Other control characters leave nothing behind. */
  lemma ControlIsGone(s: string, c: char, t: string)
    requires (c as int) < 32 && c !in {'\n', '\t', '\r', ESCAPE}
    ensures Printable(s + [c] + t) == Printable(s) + Printable(t)
  {
    var u, v := WithoutEscapes(s), WithoutEscapes(t);
    SplitEscapes(s, c, t);
    assert ([c] + t)[1..] == t;
    assert WithoutEscapes([c] + t) == [c] + v;
    SplitLines(u, [c] + v);
    assert ([c] + v)[1..] == v;
    SplitVisible(UnixLines(u), [c] + UnixLines(v));
    assert ([c] + UnixLines(v))[1..] == UnixLines(v);
  }

  /** And no terminal sequence does: parameter bytes, intermediate bytes and a final byte. */
  lemma SequenceIsGone(s: string, parameters: string, intermediates: string, final: char, t: string)
    requires forall i :: 0 <= i < |parameters| ==> 0x30 <= parameters[i] as int <= 0x3F
    requires forall i :: 0 <= i < |intermediates| ==> 0x20 <= intermediates[i] as int <= 0x2F
    requires 0x40 <= final as int <= 0x7E
    ensures WithoutEscapes(s + ([ESCAPE] + "[" + parameters + intermediates + [final]) + t)
            == WithoutEscapes(s) + WithoutEscapes(t)
  {
    SequenceLength(parameters, intermediates, final, t);
    hide EscapeLength, WithoutEscapes;
    Removed(s, [ESCAPE] + "[" + parameters + intermediates + [final], t);
  }

  lemma Removed(s: string, sequence: string, t: string)
    requires sequence != "" && sequence[0] == ESCAPE && EscapeLength(sequence + t) == |sequence|
    ensures WithoutEscapes(s + sequence + t) == WithoutEscapes(s) + WithoutEscapes(t)
  {
    hide EscapeLength;
    var rest := sequence[1..] + t;
    assert s + sequence + t == s + [ESCAPE] + rest && [ESCAPE] + rest == sequence + t;
    SplitEscapes(s, ESCAPE, rest);
    assert WithoutEscapes(sequence + t) == WithoutEscapes((sequence + t)[|sequence|..]);
    assert (sequence + t)[|sequence|..] == t;
  }

  lemma {:induction false} ClassIs(s: string, i: nat, j: nat, low: int, high: int)
    requires i <= j <= |s| && (forall k :: i <= k < j ==> Between(s[k], low, high))
    requires j < |s| ==> !Between(s[j], low, high)
    ensures SkipClass(s, i, low, high) == j
    decreases j - i
  {
    if i < j {
      ClassIs(s, i + 1, j, low, high);
    }
  }

  lemma SequenceLength(parameters: string, intermediates: string, final: char, t: string)
    requires forall i :: 0 <= i < |parameters| ==> 0x30 <= parameters[i] as int <= 0x3F
    requires forall i :: 0 <= i < |intermediates| ==> 0x20 <= intermediates[i] as int <= 0x2F
    requires 0x40 <= final as int <= 0x7E
    ensures var sequence := [ESCAPE] + "[" + parameters + intermediates + [final];
            EscapeLength(sequence + t) == |sequence|
  {
    var s := [ESCAPE] + "[" + parameters + intermediates + [final] + t;
    var p := 2 + |parameters|;
    var q := p + |intermediates|;
    assert forall k :: 2 <= k < p ==> s[k] == parameters[k - 2];
    assert forall k :: p <= k < q ==> s[k] == intermediates[k - p];
    assert s[q] == final;
    ClassIs(s, 2, p, 0x30, 0x3F);
    ClassIs(s, p, q, 0x20, 0x2F);
  }

  /** Only newlines at the ends are stripped. */
  lemma CleanIs(value: string) returns (i: nat, j: nat)
    ensures i <= j <= |Printable(value)| && Clean(value) == Printable(value)[i..j]
    ensures forall k :: 0 <= k < i || j <= k < |Printable(value)| ==> Printable(value)[k] == '\n'
    ensures i < j ==> Printable(value)[i] != '\n' && Printable(value)[j - 1] != '\n'
  {
    hide Printable, Stripped;
    StrippedIsCore(Printable(value), IsNewline);
    i, j :| CoreAt(Printable(value), IsNewline, i, j) && Clean(value) == Printable(value)[i..j];
  }

  /** The end of a string, as a negative slice takes it: no characters means all of them. */
  function LastOf(s: string, n: nat): (r: string)
    requires n <= |s|
    ensures forall c :: c in r ==> c in s
  {
    if n == 0 then s else s[|s| - n..]
  }

  /** Says how many characters were left out. */
  function Gap(omitted: nat): string {
    "\n\n… пропущено " + S.Decimal(omitted) + " символов …\n\n"
  }

  function Truncate(value: string, limit: nat): string {
    if |value| <= limit then value
    else
      var head := limit * 2 / 3;
      TrimEnd(value[..head], IsSpace) + Gap(|value| - limit) + TrimStart(LastOf(value, limit - head), IsSpace)
  }

  /** A positive limit bounds what is shown beside the gap; a limit of zero keeps the whole text. */
  lemma TruncateBounds(value: string, limit: nat)
    requires |value| > limit
    ensures limit > 0 ==> |Truncate(value, limit)| <= limit + |Gap(|value| - limit)|
    ensures limit == 0 ==> Truncate(value, limit) == Gap(|value|) + TrimStart(value, IsSpace)
  {
    if limit == 0 {
      assert TrimEnd(value[..0], IsSpace) == "";
    }
  }

  lemma TruncateParts(value: string, limit: nat, front: nat)
    requires |value| > limit > 0 && front == limit * 2 / 3
    ensures Truncate(value, limit)
            == TrimEnd(value[..front], IsSpace) + Gap(|value| - limit)
               + TrimStart(value[|value| - (limit - front)..], IsSpace)
  {
    hide TrimEnd, TrimStart, IsSpace, Gap;
  }

  lemma GapIs(omitted: nat) returns (number: string)
    ensures S.IsNumeral(number, omitted) && Gap(omitted) == "\n\n… пропущено " + number + " символов …\n\n"
  {
    number := S.Decimal(omitted);
    S.DecimalIs(omitted);
    hide S.Decimal, S.IsNumeral;
  }

  /** What a truncation shows: two thirds of the limit from the front and the rest from the end, each
      without the white space at the gap, and between them the number of characters left out. */
  lemma TruncateIs(value: string, limit: nat)
    returns (front: nat, first: string, number: string, gap: string, last: string)
    requires |value| > limit > 0
    ensures 3 * front <= 2 * limit < 3 * front + 3
    ensures FrontOf(value[..front], first) && BackOf(value[|value| - (limit - front)..], last)
    ensures S.IsNumeral(number, |value| - limit) && gap == "\n\n… пропущено " + number + " символов …\n\n"
    ensures Truncate(value, limit) == first + gap + last
  {
    hide Truncate, Gap, TrimEnd, TrimStart, IsSpace, FrontOf, BackOf, S.IsNumeral;
    front := limit * 2 / 3;
    var head, tail := value[..front], value[|value| - (limit - front)..];
    first, last := TrimEnd(head, IsSpace), TrimStart(tail, IsSpace);
    EndsTrimmed(head, tail);
    TruncateParts(value, limit, front);
    number := GapIs(|value| - limit);
    gap := Gap(|value| - limit);
  }

  /** The text without the white space at its end. */
  ghost predicate FrontOf(text: string, r: string) {
    r <= text && (forall i :: |r| <= i < |text| ==> IsSpace(text[i])) && (r != "" ==> !IsSpace(r[|r| - 1]))
  }

  /** The text without the white space at its start. */
  ghost predicate BackOf(text: string, r: string) {
    && |r| <= |text| && r == text[|text| - |r|..]
    && (forall i :: 0 <= i < |text| - |r| ==> IsSpace(text[i])) && (r != "" ==> !IsSpace(r[0]))
  }

  lemma EndsTrimmed(head: string, tail: string)
    ensures FrontOf(head, TrimEnd(head, IsSpace)) && BackOf(tail, TrimStart(tail, IsSpace))
  {
    TrimEndIs(head, IsSpace);
    TrimStartIs(tail, IsSpace);
    hide TrimEnd, TrimStart, IsSpace;
  }

  const NO_OUTPUT := "(нет вывода)"

  /** What a log shows: the cleaned and bounded text, or a placeholder. */
  function Text(value: string, limit: nat): string {
    var text := Truncate(Clean(value), limit);
    if text == "" then NO_OUTPUT else text
  }

  lemma TextIs(value: string, limit: nat)
    ensures Clean(value) == "" ==> Text(value, limit) == "(нет вывода)"
    ensures 0 < |Clean(value)| <= limit ==> Text(value, limit) == Clean(value)
    ensures |Clean(value)| > limit ==> Text(value, limit) == Truncate(Clean(value), limit)
  {
    hide Clean, S.Decimal;
  }

  lemma {:induction false} NothingToRemove(s: string)
    requires forall c :: c in s ==> Visible(c)
    ensures WithoutEscapes(s) == s && UnixLines(s) == s && OnlyVisible(s) == s
  {
    if s == "" {
    } else {
      assert Visible(s[0]);
      NothingToRemove(s[1..]);
      assert s == [s[0]] + s[1..];
    }
  }

  /** Cleaning is complete: cleaning again changes nothing. */
  lemma CleanTwice(value: string)
    ensures Clean(Clean(value)) == Clean(value)
  {
    NothingToRemove(Clean(value));
  }

  // ---- The fence -----------------------------------------------------------------------------------

  /** Leading backticks. */
  function Run(s: string): (n: nat)
    ensures n <= |s| && forall i :: 0 <= i < n ==> s[i] == '`'
    ensures n < |s| ==> s[n] != '`'
  {
    if |s| > 0 && s[0] == '`' then 1 + Run(s[1..]) else 0
  }

  function LongestRun(s: string): nat {
    if s == "" then 0 else Max(Run(s), LongestRun(s[1..]))
  }

  function Backticks(n: nat): (s: string)
    ensures |s| == n && forall i :: 0 <= i < n ==> s[i] == '`'
  {
    if n == 0 then "" else "`" + Backticks(n - 1)
  }

  function FenceLength(text: string): nat {
    Max(3, LongestRun(text) + 1)
  }

  function FormatToolLog(value: string, limit: nat): string {
    var text := Text(value, limit);
    var fence := Backticks(FenceLength(text));
    fence + "text\n" + text + "\n" + fence
  }

  lemma {:induction false} LongestIs(s: string) returns (i: nat)
    ensures i + LongestRun(s) <= |s| && forall k :: i <= k < i + LongestRun(s) ==> s[k] == '`'
  {
    i := 0;
    if s != "" && LongestRun(s) > Run(s) {
      var j := LongestIs(s[1..]);
      i := j + 1;
      assert forall k :: i <= k < i + LongestRun(s) ==> s[k] == s[1..][k - 1];
    }
  }

  /** The log is the text between two fences of backticks, and the fence is as short as can be: three
      long, or one longer than some run of backticks in the text. */
  lemma LogIs(value: string, limit: nat) returns (fence: string, i: nat)
    ensures FormatToolLog(value, limit) == fence + "text\n" + Text(value, limit) + "\n" + fence
    ensures |fence| >= 3 && forall k :: 0 <= k < |fence| ==> fence[k] == '`'
    ensures |fence| > 3 ==>
              && i + |fence| - 1 <= |Text(value, limit)|
              && forall k :: i <= k < i + |fence| - 1 ==> Text(value, limit)[k] == '`'
  {
    hide Text, LongestRun;
    fence := Backticks(FenceLength(Text(value, limit)));
    i := LongestIs(Text(value, limit));
  }

  // ---- CommonMark fenced code blocks -----------------------------------------------------------------

  /** Lines end with a newline, a carriage return or both. */
  function LinesOf(s: string): (r: seq<string>)
    ensures |r| > 0
    decreases |s|
  {
    if s == "" then [""]
    else if s[0] == '\n' then [""] + LinesOf(s[1..])
    else if s[0] == '\r' then [""] + LinesOf(if |s| > 1 && s[1] == '\n' then s[2..] else s[1..])
    else
      var rest := LinesOf(s[1..]);
      [[s[0]] + rest[0]] + rest[1..]
  }

  function Joined(lines: seq<string>): string
    requires |lines| > 0
  {
    if |lines| == 1 then lines[0] else lines[0] + "\n" + Joined(lines[1..])
  }

  function Spaces(line: string): (n: nat)
    ensures n <= |line|
  {
    if |line| > 0 && line[0] == ' ' then 1 + Spaces(line[1..]) else 0
  }

  predicate IsBlank(c: char) {
    c == ' ' || c == '\t'
  }

  /** An opening fence: indentation, length and info string. */
  datatype Fence = Fence(indent: nat, length: nat, info: string)

  function Opening(line: string): Option<Fence> {
    var indent := Spaces(line);
    var length := Run(line[indent..]);
    var info := line[indent + length..];
    if indent <= 3 && length >= 3 && '`' !in info then Some(Fence(indent, length, Stripped(info, IsBlank))) else None
  }

  /** A closing fence for an opening one of this length. */
  predicate Closes(line: string, length: nat) {
    var indent := Spaces(line);
    var run := Run(line[indent..]);
    indent <= 3 && run >= length && forall i :: indent + run <= i < |line| ==> IsBlank(line[i])
  }

  function Unindent(line: string, indent: nat): string {
    line[if Spaces(line) < indent then Spaces(line) else indent..]
  }

  /** The number of lines before the closing fence, or all of them. */
  function ContentLines(lines: seq<string>, length: nat): (n: nat)
    ensures n <= |lines|
  {
    if |lines| == 0 || Closes(lines[0], length) then 0 else 1 + ContentLines(lines[1..], length)
  }

  /** A code block and the lines after it. */
  datatype Block = Block(info: string, content: seq<string>, rest: seq<string>)

  function ParseFenced(document: string): Option<Block> {
    var lines := LinesOf(document);
    match Opening(lines[0])
    case None => None
    case Some(fence) =>
      var n := ContentLines(lines[1..], fence.length);
      var content := seq(n, i requires 0 <= i < n => Unindent(lines[1 + i], fence.indent));
      Some(Block(fence.info, content, if 1 + n < |lines| then lines[n + 2..] else []))
  }

  // ---- Round trip ------------------------------------------------------------------------------------

  lemma CleanIsPlain(value: string)
    ensures '\r' !in Clean(value)
  {
    assert !Visible('\r');
  }

  lemma GapIsPlain(omitted: nat)
    ensures '\r' !in Gap(omitted) && Gap(omitted) != ""
  {
    S.DecimalIs(omitted);
    var digits := S.Decimal(omitted);
    assert '\r' !in digits;
    hide S.Decimal;
    assert '\r' !in "\n\n… пропущено " && '\r' !in " символов …\n\n";
    PlainConcat("\n\n… пропущено ", digits, " символов …\n\n");
  }

  lemma PlainConcat(a: string, b: string, c: string)
    requires '\r' !in a && '\r' !in b && '\r' !in c
    ensures '\r' !in a + b + c
  {
  }

  /** The text is nonempty and holds no carriage return. */
  lemma TextIsPlain(value: string, limit: nat)
    ensures Text(value, limit) != "" && '\r' !in Text(value, limit)
  {
    hide Clean, TrimEnd, TrimStart, LastOf, Gap;
    var clean := Clean(value);
    CleanIsPlain(value);
    if |clean| > limit {
      var head := limit * 2 / 3;
      var first, last := TrimEnd(clean[..head], IsSpace), TrimStart(LastOf(clean, limit - head), IsSpace);
      assert forall c :: c in first ==> c in clean;
      assert forall c :: c in last ==> c in LastOf(clean, limit - head);
      GapIsPlain(|clean| - limit);
      PlainConcat(first, Gap(|clean| - limit), last);
    }
    assert '\r' !in NO_OUTPUT;
  }

  lemma {:induction false} LinesConcat(a: string, b: string)
    requires '\r' !in a
    ensures LinesOf(a + "\n" + b) == LinesOf(a) + LinesOf(b)
  {
    if a == "" {
      assert ("" + "\n" + b)[1..] == b;
    } else {
      assert (a + "\n" + b)[1..] == a[1..] + "\n" + b;
      LinesConcat(a[1..], b);
    }
  }

  lemma {:induction false} LinesJoin(s: string)
    requires '\r' !in s
    ensures Joined(LinesOf(s)) == s
  {
    if s == "" {
    } else {
      LinesJoin(s[1..]);
      var rest := LinesOf(s[1..]);
      if s[0] == '\n' {
        assert LinesOf(s)[1..] == rest;
      } else {
        assert LinesOf(s)[1..] == rest[1..];
        assert s == [s[0]] + s[1..];
      }
    }
  }

  lemma {:induction false} FirstRun(s: string)
    ensures Run(LinesOf(s)[0]) <= Run(s)
  {
    if s != "" && s[0] == '`' {
      FirstRun(s[1..]);
      assert LinesOf(s)[0][1..] == LinesOf(s[1..])[0];
    }
  }

  /** No line has a longer run of backticks than the text. */
  lemma {:induction false} LineRuns(s: string)
    requires '\r' !in s
    ensures forall line :: line in LinesOf(s) ==> LongestRun(line) <= LongestRun(s)
  {
    if s == "" {
    } else {
      LineRuns(s[1..]);
      FirstRun(s);
      var rest := LinesOf(s[1..]);
      if s[0] != '\n' {
        assert LinesOf(s)[0][1..] == rest[0];
        assert rest[0] in rest;
      }
    }
  }

  lemma {:induction false} RunWithin(s: string, i: nat)
    requires i <= |s|
    ensures Run(s[i..]) <= LongestRun(s)
  {
    if i == 0 {
      assert s[0..] == s;
    } else {
      RunWithin(s[1..], i - 1);
      assert s[1..][i - 1..] == s[i..];
    }
  }

  lemma {:induction false} OfBackticks(n: nat, tail: string)
    requires tail == "" || tail[0] != '`'
    ensures Run(Backticks(n) + tail) == n && (n > 0 ==> Spaces(Backticks(n) + tail) == 0)
  {
    if n == 0 {
    } else {
      OfBackticks(n - 1, tail);
      assert (Backticks(n) + tail)[1..] == Backticks(n - 1) + tail;
    }
  }

  lemma {:induction false} AllContent(lines: seq<string>, fence: string, length: nat)
    requires forall line :: line in lines ==> !Closes(line, length)
    requires Closes(fence, length)
    ensures ContentLines(lines + [fence], length) == |lines|
  {
    if |lines| == 0 {
    } else {
      AllContent(lines[1..], fence, length);
      assert (lines + [fence])[1..] == lines[1..] + [fence];
    }
  }

  lemma {:induction false} SingleLine(s: string)
    requires '\n' !in s && '\r' !in s
    ensures LinesOf(s) == [s]
  {
    if s == "" {
    } else {
      SingleLine(s[1..]);
      assert [s[0]] + s[1..] == s;
    }
  }

  /** No line of the text closes its fence. */
  lemma NothingCloses(text: string)
    requires '\r' !in text
    ensures forall line :: line in LinesOf(text) ==> !Closes(line, FenceLength(text))
  {
    LineRuns(text);
    forall line | line in LinesOf(text) ensures !Closes(line, FenceLength(text)) {
      RunWithin(line, Spaces(line));
    }
  }

  lemma Opens(fence: string, info: string)
    requires |fence| >= 3 && Run(fence + info) == |fence| && Spaces(fence + info) == 0
    requires '`' !in info && Stripped(info, IsBlank) == info
    ensures Opening(fence + info) == Some(Fence(0, |fence|, info))
  {
    hide Run, Spaces, Stripped;
    assert (fence + info)[0..] == fence + info;
    assert (fence + info)[0 + |fence|..] == info;
  }

  lemma OpensText(n: nat)
    requires n >= 3
    ensures Opening(Backticks(n) + "text") == Some(Fence(0, n, "text"))
  {
    hide Opening, Run, Spaces, Stripped;
    OfBackticks(n, "text");
    NothingToStrip("text", IsBlank);
    Opens(Backticks(n), "text");
  }

  lemma ClosesItself(n: nat)
    requires n >= 3
    ensures Closes(Backticks(n), n)
  {
    OfBackticks(n, "");
    hide Backticks, Run, Spaces;
    assert Backticks(n) + "" == Backticks(n) && Backticks(n)[0..] == Backticks(n);
  }

  lemma FenceLines(n: nat)
    ensures '\r' !in Backticks(n) + "text"
    ensures LinesOf(Backticks(n) + "text") == [Backticks(n) + "text"] && LinesOf(Backticks(n)) == [Backticks(n)]
  {
    var open := Backticks(n) + "text";
    assert forall i :: 0 <= i < |open| ==> open[i] == '`' || open[i] in "text";
    hide Backticks, LinesOf;
    SingleLine(open);
    SingleLine(Backticks(n));
  }

  /** A document of an opening fence, content that does not close it, and a closing fence. */
  lemma ParsesBack(document: string, open: string, content: seq<string>, close: string, length: nat, info: string)
    requires LinesOf(document) == [open] + (content + [close])
    requires Opening(open) == Some(Fence(0, length, info)) && Closes(close, length)
    requires forall line :: line in content ==> !Closes(line, length)
    ensures ParseFenced(document) == Some(Block(info, content, []))
  {
    hide Opening, Closes, LinesOf, Spaces, ContentLines, Unindent;
    var lines := LinesOf(document);
    AllContent(content, close, length);
    assert lines[1..] == content + [close];
    var n := |content|;
    var shown := seq(n, i requires 0 <= i < n => Unindent(lines[1 + i], 0));
    forall i | 0 <= i < n ensures shown[i] == content[i] {
      assert lines[1 + i] == content[i];
      NoIndent(content[i]);
    }
    assert shown == content;
    assert lines[n + 2..] == [];
  }

  lemma NoIndent(line: string)
    ensures Unindent(line, 0) == line
  {
  }

  /** Whatever the tool printed and whatever the limit, the log parses as one code block that holds
      exactly the cleaned and bounded text, and nothing follows it. */
  lemma RoundTrip(value: string, limit: nat)
    ensures var text := Text(value, limit);
            ParseFenced(FormatToolLog(value, limit))
              == Some(Block("text", LinesOf(text), [])) && Joined(LinesOf(text)) == text
  {
    hide Text, FenceLength, Backticks, LinesOf, Opening, Closes, ParseFenced, Joined;
    var text := Text(value, limit);
    var n := FenceLength(text);
    var open, close := Backticks(n) + "text", Backticks(n);
    TextIsPlain(value, limit);
    AtLeastThree(text);
    FenceLines(n);
    OpensText(n);
    ClosesItself(n);
    NothingCloses(text);
    LinesJoin(text);
    assert FormatToolLog(value, limit) == open + "\n" + (text + "\n" + close);
    LinesConcat(open, text + "\n" + close);
    LinesConcat(text, close);
    ParsesBack(FormatToolLog(value, limit), open, LinesOf(text), close, n, "text");
  }

  lemma AtLeastThree(text: string)
    ensures FenceLength(text) >= 3
  {
  }
}
