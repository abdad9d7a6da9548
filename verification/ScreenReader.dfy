/**
 Reading a harness's input box off a plain-text scrape of its pane (`prompt-guard.ts`).

 `ReadShape` scans the rows bottom-up for an input box of one shape. The main result is a round trip:
 a draft painted the way the harness paints it, anywhere on a screen, is read back as it was typed.
 */
module ScreenReader {
  import opened Prelude

  datatype PromptState = Empty | Draft(text: string, rows: nat) | Unknown

  // ----- characters and rows -----

  /** White space as `trim` understands it. */
  predicate IsSpace(c: char) {
    || '\t' <= c <= '\r' || c == ' ' || c == '\U{00A0}' || c == '\U{1680}' || '\U{2000}' <= c <= '\U{200A}'
    || c == '\U{2028}' || c == '\U{2029}' || c == '\U{202F}' || c == '\U{205F}' || c == '\U{3000}' || c == '\U{FEFF}'
  }

  /** What `.` matches in a pattern: anything but a line terminator. */
  predicate IsLineChar(c: char) {
    c != '\n' && c != '\r' && c != '\U{2028}' && c != '\U{2029}'
  }

  predicate OneLine(s: string) {
    forall i :: 0 <= i < |s| ==> IsLineChar(s[i])
  }

  predicate IsBlank(s: string) {
    forall i :: 0 <= i < |s| ==> IsSpace(s[i])
  }

  function TrimEnd(s: string): string {
    if s == "" || !IsSpace(s[|s| - 1]) then s else TrimEnd(s[..|s| - 1])
  }

  predicate Trimmed(s: string) {
    s == "" || !IsSpace(s[|s| - 1])
  }

  const RULE := '\U{2500}'

  predicate IsRule(row: string): (rule: bool)
    ensures rule <==> [RULE, RULE, RULE] <= row
  {
    |row| >= 3 && row[0] == row[1] == row[2] == RULE
  }

  // ----- the shapes -----

  /** An input box: what its first row starts with, which characters may follow that, how later rows are
      indented, and whether rule rows fence it. */
  datatype PromptShape = PromptShape(harness: Harness, lead: string, separators: set<char>, indent: string, ruled: bool)

  const CLAUDE := PromptShape(Claude, "\U{276F}", {' ', '\U{00A0}'}, "  ", true)
  const CODEX := PromptShape(Codex, "\U{203A}", {' '}, "  ", false)
  const CURSOR := PromptShape(Cursor, "  \U{2192}", {' '}, "    ", false)

  function ShapeOf(harness: Harness): PromptShape {
    match harness
    case Claude => CLAUDE
    case Codex => CODEX
    case Cursor => CURSOR
  }

  const CODEX_PLACEHOLDERS := {
    "Ask Codex to do anything",
    "Explain this codebase",
    "Summarize recent commits",
    "Implement {feature}",
    "Find and fix a bug in @filename",
    "Write tests for @filename",
    "Improve documentation in @filename",
    "Run /review on my current changes",
    "Use /skills to list available skills"}

  predicate Placeholder(harness: Harness, text: string) {
    match harness
    case Claude => |text| >= 6 && "Try \"" <= text && text[|text| - 1] == '"' && OneLine(text)
    case Codex => text in CODEX_PLACEHOLDERS
    case Cursor => text == "Plan, search, build anything"
  }

  const MAX_ROWS_BELOW := 6

  /** The text typed on a box's first row, when the row is one. */
  function HeadText(shape: PromptShape, row: string): Option<string> {
    if !(shape.lead <= row) then None
    else
      var rest := row[|shape.lead|..];
      if rest == "" then Some("")
      else if rest[0] in shape.separators && OneLine(rest[1..]) then Some(rest[1..])
      else None
  }

  predicate Continues(shape: PromptShape, row: string) {
    shape.indent <= row && !IsBlank(row)
  }

  /** The first row from `n` on that does not continue the box. */
  function BoxEnd(rows: seq<string>, shape: PromptShape, n: nat): (end: nat)
    requires n <= |rows|
    ensures n <= end <= |rows|
    decreases |rows| - n
  {
    if n < |rows| && Continues(shape, rows[n]) then BoxEnd(rows, shape, n + 1) else n
  }

  function Count(flags: seq<bool>): nat {
    if flags == [] then 0 else Count(flags[..|flags| - 1]) + (if flags[|flags| - 1] then 1 else 0)
  }

  /** How many rows are not blank. */
  function NonBlank(rows: seq<string>): nat {
    Count(seq(|rows|, i requires 0 <= i < |rows| => !IsBlank(rows[i])))
  }

  /** What has to stand below a box: a rule, or a blank row with few rows after it. */
  predicate EndsBox(shape: PromptShape, below: seq<string>) {
    if shape.ruled then |below| > 0 && IsRule(below[0])
    else (|below| == 0 || IsBlank(below[0])) && NonBlank(below) <= MAX_ROWS_BELOW
  }

  /** What a continuation row adds to the text. */
  function LineOf(shape: PromptShape, row: string): string {
    if |row| < |shape.indent| then "" else TrimEnd(row[|shape.indent|..])
  }

  function ContinuedLines(rows: seq<string>, shape: PromptShape, from: nat, end: nat): seq<string>
    requires from <= end <= |rows|
  {
    if from == end then [] else ContinuedLines(rows, shape, from, end - 1) + [LineOf(shape, rows[end - 1])]
  }

  function JoinRows(lines: seq<string>): string {
    if |lines| == 0 then "" else if |lines| == 1 then lines[0] else lines[0] + "\n" + JoinRows(lines[1..])
  }

  function Judge(harness: Harness, lines: seq<string>): PromptState
    requires |lines| > 0
  {
    var text := JoinRows(lines);
    if text == "" || (|lines| == 1 && Placeholder(harness, text)) then Empty else Draft(text, |lines|)
  }

  /** What the box whose first row is `at` reads as, or `Unknown` when no box starts there. */
  function ReadAt(rows: seq<string>, shape: PromptShape, at: nat): PromptState
    requires at < |rows|
  {
    var head := HeadText(shape, rows[at]);
    if head.None? then Unknown
    else if shape.ruled && (at == 0 || !IsRule(rows[at - 1])) then Unknown
    else
      var end := BoxEnd(rows, shape, at + 1);
      if !EndsBox(shape, rows[end..]) then Unknown
      else Judge(shape.harness, [TrimEnd(head.value)] + ContinuedLines(rows, shape, at + 1, end))
  }

  // ----- the bottom-up scan -----

  function Reader(rows: seq<string>, shape: PromptShape): nat -> PromptState {
    (at: nat) => if at < |rows| then ReadAt(rows, shape, at) else Unknown
  }

  /** What the last of the first `n` rows that reads as a box reads as. */
  function Lowest(read: nat -> PromptState, n: nat): PromptState {
    if n == 0 then Unknown
    else if read(n - 1).Unknown? then Lowest(read, n - 1)
    else read(n - 1)
  }

  function ReadRows(rows: seq<string>, shape: PromptShape): PromptState {
    Lowest(Reader(rows, shape), |rows|)
  }

  lemma {:induction false} LowestBoxWins(read: nat -> PromptState, at: nat, n: nat)
    requires at < n && !read(at).Unknown?
    requires forall k :: at < k < n ==> read(k).Unknown?
    ensures Lowest(read, n) == read(at)
  {
    if at < n - 1 {
      LowestBoxWins(read, at, n - 1);
    }
  }

  /** Without a box anywhere, and only then, the screen is unknown. */
  lemma {:induction false} UnknownIffNoBox(read: nat -> PromptState, n: nat)
    ensures Lowest(read, n).Unknown? <==> forall at :: 0 <= at < n ==> read(at).Unknown?
  {
    if n > 0 {
      UnknownIffNoBox(read, n - 1);
    }
  }

  /** Reads the box that starts at row `at`, if one does. */
  method ReadBox(rows: seq<string>, shape: PromptShape, at: nat) returns (state: PromptState)
    requires at < |rows|
    ensures state == ReadAt(rows, shape, at)
  {
    var head := HeadText(shape, rows[at]);
    if head.None? || (shape.ruled && (at == 0 || !IsRule(rows[at - 1]))) {
      return Unknown;
    }
    var lines := [TrimEnd(head.value)];
    var next := at + 1;
    while next < |rows| && Continues(shape, rows[next])
      invariant at + 1 <= next <= |rows|
      invariant BoxEnd(rows, shape, at + 1) == BoxEnd(rows, shape, next)
      invariant lines == [TrimEnd(head.value)] + ContinuedLines(rows, shape, at + 1, next)
    {
      lines := lines + [TrimEnd(rows[next][|shape.indent|..])];
      next := next + 1;
    }
    if !EndsBox(shape, rows[next..]) {
      return Unknown;
    }
    return Judge(shape.harness, lines);
  }

  lemma LowestAbove(read: nat -> PromptState, at: nat, state: PromptState)
    requires state == read(at)
    ensures Lowest(read, at + 1) == if state.Unknown? then Lowest(read, at) else state
  {
  }

  /** The scan: the lowest row that starts a box decides, and without one the screen is unknown. */
  method ReadShape(rows: seq<string>, shape: PromptShape) returns (state: PromptState)
    ensures state == ReadRows(rows, shape)
  {
    ghost var read := Reader(rows, shape);
    var at: nat := |rows|;
    while at > 0
      invariant at <= |rows|
      invariant Lowest(read, |rows|) == Lowest(read, at)
    {
      at := at - 1;
      state := ReadBox(rows, shape, at);
      LowestAbove(read, at, state);
      if !state.Unknown? {
        return;
      }
    }
    state := Unknown;
  }

  // ----- the round trip -----

  /** How the harness paints a draft: its first line after the lead, the others indented. */
  function PaintHead(shape: PromptShape, separator: char, line: string): string {
    shape.lead + [separator] + line
  }

  function PaintBox(shape: PromptShape, separator: char, first: string, more: seq<string>): seq<string> {
    [PaintHead(shape, separator, first)] + seq(|more|, i requires 0 <= i < |more| => shape.indent + more[i])
  }

  /** A draft the box can show: its first line is one row, and no later line is blank. */
  predicate Paintable(first: string, more: seq<string>) {
    OneLine(first) && NoneBlank(more)
  }

  /** The lines of a draft as far as a scrape shows them: white space at the end of a row is lost. */
  function Visible(lines: seq<string>): (visible: seq<string>)
    ensures |visible| == |lines|
  {
    seq(|lines|, i requires 0 <= i < |lines| => TrimEnd(lines[i]))
  }

  lemma {:induction false} TrimEndCuts(s: string)
    ensures TrimEnd(s) <= s && Trimmed(TrimEnd(s))
    ensures TrimEnd(s) == s <==> Trimmed(s)
  {
    if s != "" && IsSpace(s[|s| - 1]) {
      TrimEndCuts(s[..|s| - 1]);
    }
  }

  /** What is cut is white space only. */
  lemma {:induction false} OnlySpaceIsCut(s: string, i: nat)
    requires |TrimEnd(s)| <= i < |s|
    ensures IsSpace(s[i])
  {
    var last := |s| - 1;
    if i < last {
      assert s[..last][i] == s[i];
      OnlySpaceIsCut(s[..last], i);
    }
  }

  /** Nothing is lost exactly when no line ends in white space. */
  lemma VisibleIsAllIff(lines: seq<string>)
    ensures Visible(lines) == lines <==> forall i :: 0 <= i < |lines| ==> Trimmed(lines[i])
  {
    forall i | 0 <= i < |lines|
      ensures Visible(lines)[i] == lines[i] <==> Trimmed(lines[i])
    {
      TrimEndCuts(lines[i]);
    }
    if forall i :: 0 <= i < |lines| ==> Trimmed(lines[i]) {
      assert Visible(lines) == lines;
    }
  }

  /** What stands around the box: its rules, or the blank row and the few rows below it. */
  predicate Framed(shape: PromptShape, above: seq<string>, below: seq<string>) {
    (shape.ruled ==> |above| > 0 && IsRule(above[|above| - 1])) && EndsBox(shape, below)
  }

  /** Rows that continue a box can neither start one nor be a rule. */
  predicate TellsRowsApart(shape: PromptShape) {
    && |shape.indent| > 0 && shape.indent[0] == ' '
    && |shape.lead| > 0
    && exists k :: 0 <= k < |shape.lead| && k < |shape.indent| && shape.lead[k] != shape.indent[k]
  }

  lemma ShapesTellRowsApart(harness: Harness)
    ensures TellsRowsApart(ShapeOf(harness))
  {
    var shape := ShapeOf(harness);
    var k := if harness.Cursor? then 2 else 0;
    assert shape.lead[k] != shape.indent[k];
  }

  lemma PaintedHeadReads(shape: PromptShape, separator: char, first: string)
    requires separator in shape.separators && OneLine(first)
    ensures HeadText(shape, PaintHead(shape, separator, first)) == Some(first)
  {
    var row := PaintHead(shape, separator, first);
    assert row[..|shape.lead|] == shape.lead && row[|shape.lead|..] == [separator] + first;
  }

  lemma PaintedLineContinues(shape: PromptShape, line: string)
    requires TellsRowsApart(shape) && !IsBlank(line)
    ensures Continues(shape, shape.indent + line)
    ensures LineOf(shape, shape.indent + line) == TrimEnd(line)
  {
    var row := shape.indent + line;
    var i :| 0 <= i < |line| && !IsSpace(line[i]);
    assert row[|shape.indent| + i] == line[i];
    assert row[|shape.indent|..] == line;
  }

  /** The row is a box's lead alone, or the lead, a separator and the text, in one line. */
  ghost predicate IsHead(shape: PromptShape, row: string, text: string) {
    || (row == shape.lead && text == "")
    || (OneLine(text) && exists separator :: separator in shape.separators && row == PaintHead(shape, separator, text))
  }

  lemma HeadTextIsHead(shape: PromptShape, row: string, text: string)
    requires HeadText(shape, row) == Some(text)
    ensures IsHead(shape, row, text)
  {
    var rest := row[|shape.lead|..];
    assert row == shape.lead + rest;
    if rest != "" {
      assert rest == [rest[0]] + rest[1..];
      assert row == PaintHead(shape, rest[0], text);
    }
  }

  /** Exactly those rows are a box's first row, and that text is read. */
  lemma HeadIff(shape: PromptShape, row: string, text: string)
    ensures HeadText(shape, row) == Some(text) <==> IsHead(shape, row, text)
  {
    if HeadText(shape, row) == Some(text) {
      HeadTextIsHead(shape, row, text);
    }
    if row == shape.lead {
      assert row[|shape.lead|..] == "";
    } else if IsHead(shape, row, text) {
      var separator :| separator in shape.separators && row == PaintHead(shape, separator, text);
      PaintedHeadReads(shape, separator, text);
    }
  }

  lemma IndentedRowIsNoHead(shape: PromptShape, line: string)
    requires TellsRowsApart(shape)
    ensures HeadText(shape, shape.indent + line).None?
  {
    var row := shape.indent + line;
    var k :| 0 <= k < |shape.lead| && k < |shape.indent| && shape.lead[k] != shape.indent[k];
    assert row[k] == shape.indent[k];
  }

  /** A rule row or a blank row never continues a box. */
  lemma FrameEndsBox(shape: PromptShape, row: string)
    requires TellsRowsApart(shape) && (IsRule(row) || IsBlank(row))
    ensures !Continues(shape, row)
  {
  }

  /** A box is painted with its first row at `at` and its last before `end`. */
  predicate PaintedAt(rows: seq<string>, shape: PromptShape, at: nat, end: nat, head: string, more: seq<string>) {
    && at < |rows| && rows[at] == head
    && end == at + 1 + |more| && LinesAt(rows, shape, at + 1, more)
  }

  /** The rows from `from` on show `lines`, indented. */
  predicate LinesAt(rows: seq<string>, shape: PromptShape, from: nat, lines: seq<string>) {
    from + |lines| <= |rows| && forall i :: 0 <= i < |lines| ==> rows[from + i] == shape.indent + lines[i]
  }

  predicate NoneBlank(lines: seq<string>) {
    forall i :: 0 <= i < |lines| ==> !IsBlank(lines[i])
  }

  lemma PaintingShows(rows: seq<string>, shape: PromptShape, separator: char, above: seq<string>, first: string,
                      more: seq<string>, below: seq<string>)
    requires rows == above + PaintBox(shape, separator, first, more) + below
    ensures |rows| == |above| + 1 + |more| + |below|
    ensures PaintedAt(rows, shape, |above|, |above| + 1 + |more|, PaintHead(shape, separator, first), more)
    ensures rows[|above| + 1 + |more|..] == below && rows[..|above|] == above
  {
    var box := PaintBox(shape, separator, first, more);
    assert |box| == 1 + |more|;
    forall i | 0 <= i < |more|
      ensures rows[|above| + 1 + i] == shape.indent + more[i]
    {
      assert rows[|above| + 1 + i] == box[1 + i];
    }
  }

  lemma {:induction false} PaintedLinesRead(rows: seq<string>, shape: PromptShape, from: nat, lines: seq<string>)
    requires TellsRowsApart(shape) && LinesAt(rows, shape, from, lines) && NoneBlank(lines)
    ensures ContinuedLines(rows, shape, from, from + |lines|) == Visible(lines)
    decreases |lines|
  {
    if lines != [] {
      var last := |lines| - 1;
      PaintedLinesRead(rows, shape, from, lines[..last]);
      PaintedLineContinues(shape, lines[last]);
      assert Visible(lines) == Visible(lines[..last]) + [TrimEnd(lines[last])];
    } else {
      assert Visible(lines) == [];
    }
  }

  /** The rows painted below a box's first continue it, exactly as far as it was painted. */
  lemma {:induction false} PaintedBoxEnds(rows: seq<string>, shape: PromptShape, from: nat, lines: seq<string>)
    requires TellsRowsApart(shape) && LinesAt(rows, shape, from, lines) && NoneBlank(lines)
    requires from + |lines| < |rows| ==> !Continues(shape, rows[from + |lines|])
    ensures BoxEnd(rows, shape, from) == from + |lines|
    decreases |lines|
  {
    if lines != [] {
      assert rows[from + 0] == shape.indent + lines[0];
      PaintedLineContinues(shape, lines[0]);
      forall i | 0 <= i < |lines[1..]|
        ensures rows[from + 1 + i] == shape.indent + lines[1..][i]
      {
        var next := i + 1;
        assert rows[from + next] == shape.indent + lines[next];
      }
      PaintedBoxEnds(rows, shape, from + 1, lines[1..]);
    }
  }

  lemma HeadAndEndDecide(rows: seq<string>, shape: PromptShape, at: nat, first: string, end: nat)
    requires at < |rows| && HeadText(shape, rows[at]) == Some(first) && BoxEnd(rows, shape, at + 1) == end
    ensures ReadAt(rows, shape, at) ==
            if (shape.ruled ==> at > 0 && IsRule(rows[at - 1])) && EndsBox(shape, rows[end..])
            then Judge(shape.harness, [TrimEnd(first)] + ContinuedLines(rows, shape, at + 1, end)) else Unknown
  {
  }

  lemma VisibleFromFirst(first: string, more: seq<string>)
    ensures Visible([first] + more) == [TrimEnd(first)] + Visible(more)
  {
  }

  lemma PaintedBoxParts(rows: seq<string>, shape: PromptShape, separator: char, at: nat, end: nat, first: string,
                        more: seq<string>)
    requires TellsRowsApart(shape) && separator in shape.separators && Paintable(first, more)
    requires PaintedAt(rows, shape, at, end, PaintHead(shape, separator, first), more)
    requires end < |rows| ==> !Continues(shape, rows[end])
    ensures HeadText(shape, rows[at]) == Some(first) && BoxEnd(rows, shape, at + 1) == end
    ensures ContinuedLines(rows, shape, at + 1, end) == Visible(more)
  {
    PaintedHeadReads(shape, separator, first);
    PaintedBoxEnds(rows, shape, at + 1, more);
    PaintedLinesRead(rows, shape, at + 1, more);
  }

  /** The painted box itself reads as its draft's visible lines when it stands in its frame, and is no box
      otherwise. */
  lemma PaintedBoxReads(rows: seq<string>, shape: PromptShape, separator: char, at: nat, end: nat, first: string,
                        more: seq<string>)
    requires TellsRowsApart(shape) && separator in shape.separators && Paintable(first, more)
    requires PaintedAt(rows, shape, at, end, PaintHead(shape, separator, first), more)
    requires end < |rows| ==> !Continues(shape, rows[end])
    ensures ReadAt(rows, shape, at) ==
            if (shape.ruled ==> at > 0 && IsRule(rows[at - 1])) && EndsBox(shape, rows[end..])
            then Judge(shape.harness, Visible([first] + more)) else Unknown
  {
    PaintedBoxParts(rows, shape, separator, at, end, first, more);
    HeadAndEndDecide(rows, shape, at, first, end);
    VisibleFromFirst(first, more);
  }

  lemma NoHeadNoBox(rows: seq<string>, shape: PromptShape, k: nat)
    requires k < |rows| && HeadText(shape, rows[k]).None?
    ensures ReadAt(rows, shape, k).Unknown?
  {
  }

  /** No row painted below a box's first starts a box of its own. */
  lemma PaintedLineStartsNoBox(rows: seq<string>, shape: PromptShape, from: nat, more: seq<string>, k: nat)
    requires TellsRowsApart(shape) && LinesAt(rows, shape, from, more) && from <= k < from + |more|
    ensures ReadAt(rows, shape, k).Unknown?
  {
    var i := k - from;
    assert rows[from + i] == shape.indent + more[i];
    IndentedRowIsNoHead(shape, more[i]);
    NoHeadNoBox(rows, shape, k);
  }

  /** No row of `below` starts a box. */
  predicate NoBoxBeneath(rows: seq<string>, shape: PromptShape, below: nat) {
    forall at: nat :: |rows| - below <= at < |rows| ==> Reader(rows, shape)(at).Unknown?
  }

  /** No row above `at` starts a box. */
  predicate NoBoxAbove(rows: seq<string>, shape: PromptShape, at: nat) {
    forall k: nat :: k < at ==> Reader(rows, shape)(k).Unknown?
  }

  /** What stands around a painted box, row by row. */
  lemma AroundPainting(rows: seq<string>, shape: PromptShape, separator: char, above: seq<string>, first: string,
                       more: seq<string>, below: seq<string>, end: nat)
    requires rows == above + PaintBox(shape, separator, first, more) + below && end == |above| + 1 + |more|
    ensures |rows| == end + |below|
    ensures PaintedAt(rows, shape, |above|, end, PaintHead(shape, separator, first), more)
    ensures rows[end..] == below
    ensures above != [] ==> rows[|above| - 1] == above[|above| - 1]
    ensures below != [] ==> rows[end] == below[0]
  {
    PaintingShows(rows, shape, separator, above, first, more, below);
    if above != [] {
      assert rows[..|above|][|above| - 1] == above[|above| - 1];
    }
    if below != [] {
      assert rows[end..][0] == below[0];
    }
  }

  lemma {:induction false} FramedBoxReads(rows: seq<string>, shape: PromptShape, separator: char, above: seq<string>,
                                          first: string, more: seq<string>, below: seq<string>)
    requires rows == above + PaintBox(shape, separator, first, more) + below
    requires TellsRowsApart(shape) && separator in shape.separators && Paintable(first, more)
    requires Framed(shape, above, below)
    ensures |above| < |rows|
    ensures ReadAt(rows, shape, |above|) == Judge(shape.harness, Visible([first] + more))
  {
    var end := |above| + 1 + |more|;
    AroundPainting(rows, shape, separator, above, first, more, below, end);
    if below != [] {
      FrameEndsBox(shape, below[0]);
    }
    PaintedBoxReads(rows, shape, separator, |above|, end, first, more);
  }

  /** Below a painted box's first row nothing starts a box, when nothing beneath the box does. */
  lemma NothingBelowHead(rows: seq<string>, shape: PromptShape, separator: char, above: seq<string>, first: string,
                         more: seq<string>, below: seq<string>)
    requires rows == above + PaintBox(shape, separator, first, more) + below
    requires TellsRowsApart(shape) && NoBoxBeneath(rows, shape, |below|)
    ensures |above| < |rows|
    ensures forall k: nat :: |above| < k < |rows| ==> Reader(rows, shape)(k).Unknown?
  {
    var end := |above| + 1 + |more|;
    AroundPainting(rows, shape, separator, above, first, more, below, end);
    forall k: nat | |above| < k < |rows|
      ensures Reader(rows, shape)(k).Unknown?
    {
      if k < end {
        PaintedLineStartsNoBox(rows, shape, |above| + 1, more, k);
      }
    }
  }

  /** A painted draft is read back, whatever stands above it: the scan returns its visible lines and row
      count, or `Empty` when nothing is typed or it is a placeholder. */
  lemma {:induction false} PaintedBoxReadsBack(rows: seq<string>, harness: Harness, separator: char, above: seq<string>,
                                               first: string, more: seq<string>, below: seq<string>)
    requires rows == above + PaintBox(ShapeOf(harness), separator, first, more) + below
    requires separator in ShapeOf(harness).separators && Paintable(first, more)
    requires Framed(ShapeOf(harness), above, below)
    requires NoBoxBeneath(rows, ShapeOf(harness), |below|)
    ensures ReadRows(rows, ShapeOf(harness)) == Judge(harness, Visible([first] + more))
  {
    var shape := ShapeOf(harness);
    ShapesTellRowsApart(harness);
    FramedBoxReads(rows, shape, separator, above, first, more, below);
    NothingBelowHead(rows, shape, separator, above, first, more, below);
    LowestBoxWins(Reader(rows, shape), |above|, |rows|);
  }

  /** A painted box is recognized if and only if it is framed: by rules above and below it, or by a blank
      row (or the end of the screen) and at most `MAX_ROWS_BELOW` non-blank rows. */
  lemma PaintedBoxIsRecognizedIff(rows: seq<string>, harness: Harness, separator: char, above: seq<string>,
                                  first: string, more: seq<string>, below: seq<string>)
    requires rows == above + PaintBox(ShapeOf(harness), separator, first, more) + below
    requires separator in ShapeOf(harness).separators && Paintable(first, more)
    requires below != [] ==> !Continues(ShapeOf(harness), below[0])
    ensures |above| < |rows|
    ensures !ReadAt(rows, ShapeOf(harness), |above|).Unknown? <==>
              if harness.Claude? then above != [] && IsRule(above[|above| - 1]) && below != [] && IsRule(below[0])
              else (below == [] || IsBlank(below[0]))
                   && |set i | 0 <= i < |below| && !IsBlank(below[i])| <= 6
  {
    var shape, at, end := ShapeOf(harness), |above|, |above| + 1 + |more|;
    ShapesTellRowsApart(harness);
    AroundPainting(rows, shape, separator, above, first, more, below, end);
    PaintedBoxReads(rows, shape, separator, at, end, first, more);
    NonBlankCounts(below);
  }

  lemma BrokenHead(shape: PromptShape, separator: char, first: string)
    requires !OneLine(first)
    ensures HeadText(shape, PaintHead(shape, separator, first)).None?
  {
    var row := PaintHead(shape, separator, first);
    assert row[..|shape.lead|] == shape.lead && row[|shape.lead|..] == [separator] + first;
    assert ([separator] + first)[1..] == first;
  }

  /** A first line that the head's pattern does not match to its end starts no box. */
  lemma BrokenHeadIsNoBox(rows: seq<string>, harness: Harness, separator: char, above: seq<string>, first: string,
                          below: seq<string>)
    requires rows == above + PaintBox(ShapeOf(harness), separator, first, []) + below
    requires separator in ShapeOf(harness).separators && !OneLine(first)
    requires NoBoxAbove(rows, ShapeOf(harness), |above|) && NoBoxBeneath(rows, ShapeOf(harness), |below|)
    ensures ReadRows(rows, ShapeOf(harness)).Unknown?
  {
    var shape := ShapeOf(harness);
    PaintingShows(rows, shape, separator, above, first, [], below);
    BrokenHead(shape, separator, first);
    NoHeadNoBox(rows, shape, |above|);
    UnknownIffNoBox(Reader(rows, shape), |rows|);
  }

  // ----- drafts with blank lines in them -----

  /** `n` is the index of the first blank line, or the number of lines. */
  predicate FirstBlankAt(lines: seq<string>, n: nat) {
    n <= |lines| && NoneBlank(lines[..n]) && (n < |lines| ==> IsBlank(lines[n]))
  }

  /** A blank line painted in a box reads as a blank row: it continues nothing and is no rule. */
  lemma BlankLineEndsBox(harness: Harness, line: string)
    requires IsBlank(line)
    ensures IsBlank(ShapeOf(harness).indent + line)
    ensures !IsRule(ShapeOf(harness).indent + line)
  {
    var row := ShapeOf(harness).indent + line;
    assert IsSpace(row[0]);
  }

  lemma LinesAtPrefix(rows: seq<string>, shape: PromptShape, from: nat, lines: seq<string>, n: nat)
    requires LinesAt(rows, shape, from, lines) && n <= |lines|
    ensures LinesAt(rows, shape, from, lines[..n])
    ensures n < |lines| ==> from + n < |rows| && rows[from + n] == shape.indent + lines[n]
  {
  }

  /** Where the first `n` further lines of a painted box end, and what the row there is. */
  lemma PaintingUpTo(rows: seq<string>, shape: PromptShape, separator: char, above: seq<string>, first: string,
                     more: seq<string>, below: seq<string>, n: nat, end: nat)
    requires rows == above + PaintBox(shape, separator, first, more) + below
    requires n <= |more| && end == |above| + 1 + n
    ensures end <= |rows|
    ensures PaintedAt(rows, shape, |above|, end, PaintHead(shape, separator, first), more[..n])
    ensures above != [] ==> rows[|above| - 1] == above[|above| - 1]
    ensures n < |more| ==> end < |rows| && rows[end] == shape.indent + more[n]
    ensures n == |more| ==> rows[end..] == below && (below != [] ==> rows[end] == below[0])
  {
    AroundPainting(rows, shape, separator, above, first, more, below, |above| + 1 + |more|);
    LinesAtPrefix(rows, shape, |above| + 1, more, n);
    assert LinesAt(rows, shape, |above| + 1, more[..n]) && end == |above| + 1 + |more[..n]|;
  }

  /** A painted box whose first `n` further lines are the ones that continue it. */
  lemma PaintedUpTo(rows: seq<string>, shape: PromptShape, separator: char, above: seq<string>, first: string,
                    more: seq<string>, below: seq<string>, n: nat, end: nat)
    requires rows == above + PaintBox(shape, separator, first, more) + below
    requires TellsRowsApart(shape) && separator in shape.separators && OneLine(first)
    requires shape.ruled ==> above != [] && IsRule(above[|above| - 1])
    requires n <= |more| && NoneBlank(more[..n]) && end == |above| + 1 + n
    requires n < |more| ==> !Continues(shape, shape.indent + more[n])
    requires n == |more| && below != [] ==> !Continues(shape, below[0])
    ensures end <= |rows|
    ensures ReadAt(rows, shape, |above|) ==
            if EndsBox(shape, rows[end..]) then Judge(shape.harness, Visible([first] + more[..n])) else Unknown
  {
    PaintingUpTo(rows, shape, separator, above, first, more, below, n, end);
    if n == |more| && end < |rows| {
      assert rows[end..] != [];
    }
    PaintedBoxReads(rows, shape, separator, |above|, end, first, more[..n]);
  }

  /** Of `size` further lines the first `n` are read, up to row `end`: all of them, or those before a blank
      one when no rules fence the box and few enough rows stand below. */
  predicate ReadUpTo(harness: Harness, rows: seq<string>, end: nat, n: nat, size: nat)
    requires end <= |rows|
  {
    n == size || (!harness.Claude? && NonBlank(rows[end..]) <= MAX_ROWS_BELOW)
  }

  lemma {:induction false} PaintedDraftIsCutAtBlank(
      rows: seq<string>, harness: Harness, separator: char, above: seq<string>, first: string, more: seq<string>,
      below: seq<string>, n: nat)
    requires rows == above + PaintBox(ShapeOf(harness), separator, first, more) + below
    requires separator in ShapeOf(harness).separators && OneLine(first)
    requires Framed(ShapeOf(harness), above, below) && FirstBlankAt(more, n)
    ensures |above| + 1 + n <= |rows| && |above| < |rows|
    ensures ReadAt(rows, ShapeOf(harness), |above|) ==
            if ReadUpTo(harness, rows, |above| + 1 + n, n, |more|) then Judge(harness, Visible([first] + more[..n]))
            else Unknown
  {
    var shape, end := ShapeOf(harness), |above| + 1 + n;
    ShapesTellRowsApart(harness);
    if n < |more| {
      BlankLineEndsBox(harness, more[n]);
      FrameEndsBox(shape, shape.indent + more[n]);
    } else if below != [] {
      FrameEndsBox(shape, below[0]);
    }
    PaintingUpTo(rows, shape, separator, above, first, more, below, n, end);
    PaintedUpTo(rows, shape, separator, above, first, more, below, n, end);
    if n < |more| {
      assert rows[end..][0] == shape.indent + more[n];
    }
  }

  /** The only row that may start a box decides what the screen reads as. */
  lemma OnlyBoxDecides(rows: seq<string>, shape: PromptShape, at: nat)
    requires at < |rows|
    requires forall k: nat :: k < |rows| && k != at ==> Reader(rows, shape)(k).Unknown?
    ensures ReadRows(rows, shape) == ReadAt(rows, shape, at)
  {
    var read := Reader(rows, shape);
    if read(at).Unknown? {
      UnknownIffNoBox(read, |rows|);
    } else {
      LowestBoxWins(read, at, |rows|);
    }
  }

  /** So it reads from the whole screen too, when it is the only box there. */
  lemma PaintedDraftDecides(
      rows: seq<string>, harness: Harness, separator: char, above: seq<string>, first: string, more: seq<string>,
      below: seq<string>)
    requires rows == above + PaintBox(ShapeOf(harness), separator, first, more) + below
    requires NoBoxAbove(rows, ShapeOf(harness), |above|) && NoBoxBeneath(rows, ShapeOf(harness), |below|)
    ensures |above| < |rows|
    ensures ReadRows(rows, ShapeOf(harness)) == ReadAt(rows, ShapeOf(harness), |above|)
  {
    var shape, at := ShapeOf(harness), |above|;
    ShapesTellRowsApart(harness);
    NothingBelowHead(rows, shape, separator, above, first, more, below);
    OnlyBoxDecides(rows, shape, at);
  }

  /** The reading of a draft of any lines, when it is the only box on the screen: whole when none after the
      first is blank, and otherwise cut at the first blank one, which a ruled box does not survive at all. */
  lemma PaintedDraftReads(
      rows: seq<string>, harness: Harness, separator: char, above: seq<string>, first: string, more: seq<string>,
      below: seq<string>, n: nat)
    requires rows == above + PaintBox(ShapeOf(harness), separator, first, more) + below
    requires separator in ShapeOf(harness).separators && OneLine(first)
    requires Framed(ShapeOf(harness), above, below) && FirstBlankAt(more, n)
    requires NoBoxAbove(rows, ShapeOf(harness), |above|) && NoBoxBeneath(rows, ShapeOf(harness), |below|)
    ensures |above| + 1 + n <= |rows|
    ensures ReadRows(rows, ShapeOf(harness)) ==
            if ReadUpTo(harness, rows, |above| + 1 + n, n, |more|) then Judge(harness, Visible([first] + more[..n]))
            else Unknown
  {
    PaintedDraftIsCutAtBlank(rows, harness, separator, above, first, more, below, n);
    PaintedDraftDecides(rows, harness, separator, above, first, more, below);
  }

  lemma {:induction false} CountIs(flags: seq<bool>)
    ensures Count(flags) == |set i | 0 <= i < |flags| && flags[i]|
  {
    var all := set i | 0 <= i < |flags| && flags[i];
    if flags == [] {
      assert all == {};
    } else {
      var last := |flags| - 1;
      CountIs(flags[..last]);
      var before := set i | 0 <= i < |flags[..last]| && flags[..last][i];
      assert all == before + (if flags[last] then {last} else {});
    }
  }

  lemma NonBlankCounts(rows: seq<string>)
    ensures NonBlank(rows) == |set i | 0 <= i < |rows| && !IsBlank(rows[i])|
  {
    var flags := seq(|rows|, i requires 0 <= i < |rows| => !IsBlank(rows[i]));
    CountIs(flags);
    assert (set i | 0 <= i < |rows| && !IsBlank(rows[i])) == set i | 0 <= i < |flags| && flags[i];
  }

  lemma JoinedRowsEmptyIff(lines: seq<string>)
    requires |lines| > 0
    ensures JoinRows(lines) == "" <==> lines == [""]
  {
    if |lines| > 1 {
      assert |JoinRows(lines)| >= 1;
    }
  }

  /** When a painted draft reads as no draft: nothing typed, or one line spelled like a placeholder. */
  lemma ReadsEmptyIff(harness: Harness, first: string, more: seq<string>)
    ensures Judge(harness, [first] + more).Empty? <==> more == [] && (first == "" || Placeholder(harness, first))
    ensures Judge(harness, [first] + more).Draft? ==>
              Judge(harness, [first] + more) == Draft(JoinRows([first] + more), 1 + |more|)
  {
    var lines := [first] + more;
    assert |lines| == 1 + |more| && lines[0] == first;
    JoinedRowsEmptyIff(lines);
    if more == [] {
      assert lines == [first];
      assert JoinRows(lines) == first;
    }
  }

  // ----- the whole screen -----

  /** `split('\n')`. */
  function SplitRows(screen: string): (rows: seq<string>)
    ensures |rows| > 0
  {
    if screen == "" then [""]
    else
      var rest := SplitRows(screen[1..]);
      if screen[0] == '\n' then [""] + rest else [[screen[0]] + rest[0]] + rest[1..]
  }

  predicate NoNewline(row: string) {
    '\n' !in row
  }

  lemma {:induction false} SplitOneRow(row: string, tail: string)
    requires NoNewline(row)
    ensures SplitRows(row) == [row]
    ensures SplitRows(row + "\n" + tail) == [row] + SplitRows(tail)
  {
    if row == "" {
      assert ("" + "\n" + tail)[1..] == tail;
    } else {
      SplitOneRow(row[1..], tail);
      assert (row + "\n" + tail)[1..] == row[1..] + "\n" + tail;
      assert [row[0]] + row[1..] == row;
    }
  }

  lemma {:induction false} SplitUndoesJoin(rows: seq<string>)
    requires |rows| > 0 && forall i :: 0 <= i < |rows| ==> NoNewline(rows[i])
    ensures SplitRows(JoinRows(rows)) == rows
  {
    if |rows| == 1 {
      SplitOneRow(rows[0], "");
    } else {
      SplitUndoesJoin(rows[1..]);
      SplitOneRow(rows[0], JoinRows(rows[1..]));
    }
  }

  /** And no other text has those rows: splitting and joining are each other's inverse. */
  lemma {:induction false} JoinUndoesSplit(screen: string)
    ensures JoinRows(SplitRows(screen)) == screen
    ensures forall i :: 0 <= i < |SplitRows(screen)| ==> NoNewline(SplitRows(screen)[i])
  {
    if screen != "" {
      var c, rest := screen[0], SplitRows(screen[1..]);
      JoinUndoesSplit(screen[1..]);
      assert screen == [c] + screen[1..];
      if c == '\n' {
        assert ([""] + rest)[1..] == rest;
        assert JoinRows([""] + rest) == "" + "\n" + JoinRows(rest);
      } else {
        var rows := [[c] + rest[0]] + rest[1..];
        assert rows[1..] == rest[1..];
      }
    }
  }

  /** A box with a placeholder's wording and nothing else in it. */
  lemma ClaudePlaceholderIff(text: string)
    ensures Placeholder(Claude, text) <==> exists hint :: OneLine(hint) && text == "Try \"" + hint + "\""
  {
    if Placeholder(Claude, text) {
      var hint := text[5..|text| - 1];
      assert text == "Try \"" + hint + "\"";
    }
    if hint :| OneLine(hint) && text == "Try \"" + hint + "\"" {
      var prefix := "Try \"";
      assert text[..5] == prefix;
      forall i | 0 <= i < |text|
        ensures IsLineChar(text[i])
      {
        if 5 <= i < |text| - 1 {
          assert text[i] == hint[i - 5];
        }
      }
    }
  }

  /** The first reading that recognizes a box. */
  function FirstKnown(states: seq<PromptState>): PromptState {
    if states == [] then Unknown
    else if states[0].Unknown? then FirstKnown(states[1..])
    else states[0]
  }

  const SHAPES := [CLAUDE, CODEX, CURSOR]

  function Readings(rows: seq<string>, shapes: seq<PromptShape>): (states: seq<PromptState>)
    ensures |states| == |shapes|
  {
    seq(|shapes|, i requires 0 <= i < |shapes| => ReadRows(rows, shapes[i]))
  }

  /** With the harness known its own shape decides; otherwise each shape is tried in turn. */
  function ReadPrompt(screen: string, harness: Option<Harness>): PromptState {
    FirstKnown(Readings(SplitRows(screen), if harness.Some? then [ShapeOf(harness.value)] else SHAPES))
  }

  method ReadScreen(screen: string, harness: Option<Harness>) returns (state: PromptState)
    ensures state == ReadPrompt(screen, harness)
  {
    var rows := SplitRows(screen);
    var shapes := if harness.Some? then [ShapeOf(harness.value)] else SHAPES;
    ghost var states := Readings(rows, shapes);
    var n := 0;
    while n < |shapes|
      invariant n <= |shapes|
      invariant FirstKnown(states) == FirstKnown(states[n..])
    {
      state := ReadShape(rows, shapes[n]);
      assert states[n..][0] == state && states[n..][1..] == states[n + 1..];
      if !state.Unknown? {
        return;
      }
      n := n + 1;
    }
    state := Unknown;
  }

  /** Earlier shapes win: the first reading that is not unknown is the screen's. */
  lemma {:induction false} FirstKnownWins(states: seq<PromptState>, k: nat)
    requires k < |states| && !states[k].Unknown? && forall j :: 0 <= j < k ==> states[j].Unknown?
    ensures FirstKnown(states) == states[k]
  {
    if k > 0 {
      assert states[1..][k - 1] == states[k];
      FirstKnownWins(states[1..], k - 1);
    }
  }

  lemma {:induction false} OneKnown(states: seq<PromptState>, k: nat)
    requires k < |states| && forall j :: 0 <= j < |states| && j != k ==> states[j].Unknown?
    ensures FirstKnown(states) == states[k]
  {
    if k > 0 {
      OneKnown(states[1..], k - 1);
    } else if |states| > 1 && states[0].Unknown? {
      assert states[1..][0].Unknown?;
      OneKnown(states[1..], 0);
    } else {
      assert states[0].Unknown? ==> states[1..] == [];
    }
  }

  /** With the harness known, the screen reads as its shape reads the rows. */
  lemma KnownHarnessReads(screen: string, harness: Harness)
    ensures ReadPrompt(screen, Some(harness)) == ReadRows(SplitRows(screen), ShapeOf(harness))
  {
    OneKnown(Readings(SplitRows(screen), [ShapeOf(harness)]), 0);
  }

  /** With the harness not known, a screen that no other shape recognizes reads the same. */
  lemma UnknownHarnessReadsTheSame(screen: string, harness: Harness)
    requires forall other: Harness :: other != harness ==> ReadRows(SplitRows(screen), ShapeOf(other)).Unknown?
    ensures ReadPrompt(screen, None) == ReadPrompt(screen, Some(harness))
  {
    KnownHarnessReads(screen, harness);
    var states := Readings(SplitRows(screen), SHAPES);
    assert states[0] == ReadRows(SplitRows(screen), ShapeOf(Claude));
    assert states[1] == ReadRows(SplitRows(screen), ShapeOf(Codex));
    assert states[2] == ReadRows(SplitRows(screen), ShapeOf(Cursor));
    OneKnown(states, match harness case Claude => 0 case Codex => 1 case Cursor => 2);
  }

  /** From the screen's text: the round trip for a harness that is known. */
  lemma {:induction false} PaintedScreenReadsBack(
      screen: string, rows: seq<string>, harness: Harness, separator: char, above: seq<string>, first: string,
      more: seq<string>, below: seq<string>)
    requires rows == SplitRows(screen)
    requires rows == above + PaintBox(ShapeOf(harness), separator, first, more) + below
    requires separator in ShapeOf(harness).separators && Paintable(first, more)
    requires Framed(ShapeOf(harness), above, below)
    requires NoBoxBeneath(rows, ShapeOf(harness), |below|)
    ensures ReadPrompt(screen, Some(harness)) == Judge(harness, Visible([first] + more))
  {
    KnownHarnessReads(screen, harness);
    PaintedBoxReadsBack(rows, harness, separator, above, first, more, below);
  }
}
