/**
 Quoting a launch command (`realize.ts`, and the self shim of `session.ts`).

 The encoders are the program's; the decoders follow public standards: word splitting and quote removal as
 in sections 2.2.1 and 2.2.2 of the POSIX.1-2017 Shell Command Language, and the basic string of TOML v1.0.0.
 */
module Quoting {
  import opened Prelude

  // ----- shell words -----

  function EscapeQuotes(value: string): string {
    if value == "" then ""
    else (if value[0] == '\'' then "'\\''" else [value[0]]) + EscapeQuotes(value[1..])
  }

  /** POSIX single quotes, a quote itself spelled by closing, escaping and reopening. */
  function ShellQuote(value: string): string {
    "'" + EscapeQuotes(value) + "'"
  }

  /** `words.join(' ')`. */
  function JoinWords(words: seq<string>): string {
    if |words| == 0 then "" else if |words| == 1 then words[0] else words[0] + " " + JoinWords(words[1..])
  }

  /** A character that stands for itself outside quotes wherever it stands in a word. */
  predicate IsPlain(c: char) {
    'a' <= c <= 'z' || 'A' <= c <= 'Z' || '0' <= c <= '9' || c == '-' || c == '_' || c == '.' || c == '/'
  }

  function More(word: Option<string>, c: char): Option<string> {
    Some((if word.Some? then word.value else "") + [c])
  }

  function Opened(word: Option<string>): Option<string> {
    Some(if word.Some? then word.value else "")
  }

  function Prepend(word: Option<string>, rest: Option<seq<string>>): Option<seq<string>> {
    if rest.None? then None else if word.None? then rest else Some([word.value] + rest.value)
  }

  /** The words of `s`, having read `word` so far; `quoted` inside single quotes. `None` where the text is
      cut off or a character would be more than itself (an expansion, an operator, a pattern, a NUL). */
  function Words(s: string, quoted: bool, word: Option<string>): Option<seq<string>>
    decreases |s|
  {
    if s == "" then (if quoted then None else Prepend(word, Some([])))
    else if s[0] == '\0' then None
    else if quoted then
      if s[0] == '\'' then Words(s[1..], false, Opened(word)) else Words(s[1..], true, More(word, s[0]))
    else if s[0] == '\'' then Words(s[1..], true, Opened(word))
    else if s[0] == '\\' then
      if |s| == 1 || s[1] == '\0' then None
      else if s[1] == '\n' then Words(s[2..], false, word)
      else Words(s[2..], false, More(word, s[1]))
    else if s[0] == ' ' || s[0] == '\t' then Prepend(word, Words(s[1..], false, None))
    else if IsPlain(s[0]) then Words(s[1..], false, More(word, s[0]))
    else None
  }

  function ShellSplit(command: string): Option<seq<string>> {
    Words(command, false, None)
  }

  predicate NulFree(s: string) {
    '\0' !in s
  }

  lemma {:induction false} InsideQuotes(value: string, tail: string, read: string)
    requires NulFree(value)
    ensures Words(EscapeQuotes(value) + "'" + tail, true, Some(read)) == Words(tail, false, Some(read + value))
    decreases |value|
  {
    var s := EscapeQuotes(value) + "'" + tail;
    if value == "" {
      assert s[1..] == tail;
      assert read + value == read;
    } else {
      var c, rest := value[0], value[1..];
      var after := EscapeQuotes(rest) + "'" + tail;
      InsideQuotes(rest, tail, read + [c]);
      assert read + value == read + [c] + rest;
      if c == '\'' {
        assert s == "'\\''" + after;
        EscapedQuote(after, read);
      } else {
        assert s == [c] + after && s[1..] == after;
      }
    }
  }

  lemma EscapedQuote(after: string, read: string)
    ensures Words("'\\''" + after, true, Some(read)) == Words(after, true, Some(read + "'"))
  {
    var s := "'\\''" + after;
    var open := "\\''" + after;
    var closed := "'" + after;
    assert s[0] == '\'' && s[1..] == open;
    assert open[0] == '\\' && open[1] == '\'' && open[2..] == closed;
    assert closed[0] == '\'' && closed[1..] == after;
    calc {
      Words(s, true, Some(read));
      Words(open, false, Some(read));
      Words(closed, false, Some(read + "'"));
      Words(after, true, Some(read + "'"));
    }
  }

  lemma QuotedWordReads(value: string, tail: string)
    requires NulFree(value)
    ensures Words(ShellQuote(value) + tail, false, None) == Words(tail, false, Some(value))
  {
    var s := ShellQuote(value) + tail;
    assert s[0] == '\'' && s[1..] == EscapeQuotes(value) + "'" + tail;
    InsideQuotes(value, tail, "");
    assert "" + value == value;
  }

  predicate IsBare(word: string) {
    word != "" && forall i :: 0 <= i < |word| ==> IsPlain(word[i])
  }

  lemma {:induction false} BareWordReads(word: string, tail: string, read: Option<string>)
    requires forall i :: 0 <= i < |word| ==> IsPlain(word[i])
    requires word == "" ==> read.Some?
    ensures Words(word + tail, false, read) == Words(tail, false, Some((if read.Some? then read.value else "") + word))
    decreases |word|
  {
    var start := if read.Some? then read.value else "";
    if word == "" {
      assert word + tail == tail && start + word == start;
    } else {
      assert (word + tail)[1..] == word[1..] + tail;
      BareWordReads(word[1..], tail, More(read, word[0]));
      assert start + [word[0]] + word[1..] == start + word;
    }
  }

  /** `spelled` is how a command line spells `word`: as it is, or quoted. */
  predicate Spells(spelled: string, word: string) {
    (spelled == word && IsBare(word)) || spelled == ShellQuote(word)
  }

  predicate SpellsAll(spelled: seq<string>, words: seq<string>) {
    |spelled| == |words| && forall i :: 0 <= i < |words| ==> Spells(spelled[i], words[i])
  }

  predicate AllNulFree(words: seq<string>) {
    forall i :: 0 <= i < |words| ==> NulFree(words[i])
  }

  lemma SpelledWordReads(spelled: string, word: string, tail: string)
    requires Spells(spelled, word) && NulFree(word)
    ensures Words(spelled + tail, false, None) == Words(tail, false, Some(word))
  {
    if spelled == ShellQuote(word) {
      QuotedWordReads(word, tail);
    } else {
      BareWordReads(word, tail, None);
      assert "" + word == word;
    }
  }

  /** Splitting a joined command gives back exactly its words. */
  lemma {:induction false} SplitUndoesJoin(spelled: seq<string>, words: seq<string>)
    requires SpellsAll(spelled, words) && AllNulFree(words)
    ensures ShellSplit(JoinWords(spelled)) == Some(words)
    decreases |words|
  {
    if |words| == 0 {
    } else if |words| == 1 {
      SpelledWordReads(spelled[0], words[0], "");
      assert spelled[0] + "" == JoinWords(spelled);
      assert words == [words[0]] + [];
    } else {
      SplitUndoesJoin(spelled[1..], words[1..]);
      var tail := " " + JoinWords(spelled[1..]);
      assert JoinWords(spelled) == spelled[0] + tail;
      SpelledWordReads(spelled[0], words[0], tail);
      assert tail[1..] == JoinWords(spelled[1..]);
      assert words == [words[0]] + words[1..];
    }
  }

  lemma {:induction false} NulIsNeverRead(s: string, quoted: bool, word: Option<string>)
    requires !NulFree(s)
    ensures Words(s, quoted, word).None?
    decreases |s|
  {
    if s[0] != '\0' {
      assert '\0' in s[1..];
      if !quoted && s[0] == '\\' && |s| > 1 {
        if s[1] != '\0' {
          assert s[1..] == [s[1]] + s[2..];
          NulIsNeverRead(s[2..], false, if s[1] == '\n' then word else More(word, s[1]));
        }
      } else {
        NulIsNeverRead(s[1..], if s[0] == '\'' then !quoted else quoted,
                       if s[0] == '\'' then Opened(word) else if !quoted && (s[0] == ' ' || s[0] == '\t') then None
                       else More(word, s[0]));
      }
    }
  }

  lemma {:induction false} QuotingKeepsNul(value: string)
    requires !NulFree(value)
    ensures !NulFree(EscapeQuotes(value))
  {
    if value[0] == '\0' {
      assert EscapeQuotes(value)[0] == '\0';
    } else {
      assert '\0' in value[1..];
      QuotingKeepsNul(value[1..]);
    }
  }

  lemma {:induction false} JoinKeepsNul(spelled: seq<string>, words: seq<string>)
    requires SpellsAll(spelled, words) && !AllNulFree(words)
    ensures !NulFree(JoinWords(spelled))
  {
    if !NulFree(words[0]) {
      if spelled[0] == ShellQuote(words[0]) {
        QuotingKeepsNul(words[0]);
        assert '\0' in spelled[0];
      }
      assert '\0' in spelled[0];
    } else {
      var i :| 0 <= i < |words| && !NulFree(words[i]);
      assert words[1..][i - 1] == words[i];
      JoinKeepsNul(spelled[1..], words[1..]);
    }
  }

  /** The join can be split again, exactly when no word holds a NUL, which no command line can carry. */
  lemma SplitsBackIff(spelled: seq<string>, words: seq<string>)
    requires SpellsAll(spelled, words)
    ensures ShellSplit(JoinWords(spelled)) == if AllNulFree(words) then Some(words) else None
  {
    if AllNulFree(words) {
      SplitUndoesJoin(spelled, words);
    } else {
      JoinKeepsNul(spelled, words);
      NulIsNeverRead(JoinWords(spelled), false, None);
    }
  }

  function QuoteAll(words: seq<string>): (quoted: seq<string>)
    ensures |quoted| == |words|
  {
    seq(|words|, i requires 0 <= i < |words| => ShellQuote(words[i]))
  }

  /** The self shim re-invokes exactly the words it was written for. */
  lemma ShimInvokesSelf(self: seq<string>)
    ensures ShellSplit(JoinWords(QuoteAll(self))) == if AllNulFree(self) then Some(self) else None
  {
    SplitsBackIff(QuoteAll(self), self);
  }

  // ----- TOML basic strings -----

  const HEX := "0123456789abcdef"

  /** The characters JSON spells with a backslash and one more character, and that character. */
  function ShortEscape(c: char): Option<char> {
    if c == '"' || c == '\\' then Some(c)
    else if c == '\U{0008}' then Some('b')
    else if c == '\U{000C}' then Some('f')
    else if c == '\n' then Some('n')
    else if c == '\r' then Some('r')
    else if c == '\t' then Some('t')
    else None
  }

  function JsonEscape(c: char): string {
    if ShortEscape(c).Some? then ['\\', ShortEscape(c).value]
    else if c < ' ' then "\\u00" + [HEX[c as int / 16], HEX[c as int % 16]]
    else [c]
  }

  function JsonEscapeAll(s: string): string {
    if s == "" then "" else JsonEscape(s[0]) + JsonEscapeAll(s[1..])
  }

  /** `JSON.stringify` of a string. */
  function JsonString(s: string): string {
    "\"" + JsonEscapeAll(s) + "\""
  }

  const DEL := '\U{007F}'

  function ReplaceDel(s: string): string {
    if s == "" then "" else (if s[0] == DEL then "\\u007f" else [s[0]]) + ReplaceDel(s[1..])
  }

  function TomlBasicString(value: string): string {
    ReplaceDel(JsonString(value))
  }

  function HexValue(c: char): Option<int> {
    if '0' <= c <= '9' then Some(c as int - '0' as int)
    else if 'a' <= c <= 'f' then Some(c as int - 'a' as int + 10)
    else if 'A' <= c <= 'F' then Some(c as int - 'A' as int + 10)
    else None
  }

  function HexNumber(digits: string): Option<int> {
    if digits == "" then Some(0)
    else
      var high, low := HexNumber(digits[..|digits| - 1]), HexValue(digits[|digits| - 1]);
      if high.None? || low.None? then None else Some(16 * high.value + low.value)
  }

  predicate IsScalar(n: int) {
    0 <= n < 0xD800 || 0xE000 <= n < 0x11_0000
  }

  function Plus(c: char, rest: Option<string>): Option<string> {
    if rest.None? then None else Some([c] + rest.value)
  }

  /** A character that a basic string may hold unescaped. */
  predicate Unescaped(c: char) {
    c != '"' && c != '\\' && (c == '\t' || (c >= ' ' && c != DEL))
  }

  function SimpleEscape(c: char): Option<char> {
    match c
    case 'b' => Some('\U{0008}')
    case 't' => Some('\t')
    case 'n' => Some('\n')
    case 'f' => Some('\U{000C}')
    case 'r' => Some('\r')
    case '"' => Some('"')
    case '\\' => Some('\\')
    case _ => None
  }

  /** What a basic string whose opening quote is read already means. */
  function TomlBody(s: string): Option<string>
    decreases |s|
  {
    if s == "" then None
    else if s[0] == '"' then (if |s| == 1 then Some("") else None)
    else if Unescaped(s[0]) then Plus(s[0], TomlBody(s[1..]))
    else if s[0] != '\\' || |s| < 2 then None
    else if SimpleEscape(s[1]).Some? then Plus(SimpleEscape(s[1]).value, TomlBody(s[2..]))
    else
      var digits := if s[1] == 'u' then 4 else if s[1] == 'U' then 8 else 0;
      if digits == 0 || |s| < 2 + digits then None
      else
        var n := HexNumber(s[2..2 + digits]);
        if n.None? || !IsScalar(n.value) then None else Plus(n.value as char, TomlBody(s[2 + digits..]))
  }

  function TomlRead(s: string): Option<string> {
    if s == "" || s[0] != '"' then None else TomlBody(s[1..])
  }

  lemma {:induction false} ReplaceDelJoins(a: string, b: string)
    ensures ReplaceDel(a + b) == ReplaceDel(a) + ReplaceDel(b)
  {
    if a == "" {
      assert a + b == b;
    } else {
      assert (a + b)[1..] == a[1..] + b;
      ReplaceDelJoins(a[1..], b);
    }
  }

  /** One character as the encoder spells it. */
  function TomlEscape(c: char): string {
    if c == DEL then "\\u007f" else JsonEscape(c)
  }

  lemma EscapeHoldsNoDel(c: char)
    ensures ReplaceDel(JsonEscape(c)) == TomlEscape(c)
  {
    if c == DEL {
      assert [c][1..] == "";
    } else {
      assert forall i :: 0 <= i < |HEX| ==> HEX[i] != DEL;
      NoDelNoChange(JsonEscape(c));
    }
  }

  lemma {:induction false} NoDelNoChange(s: string)
    requires DEL !in s
    ensures ReplaceDel(s) == s
  {
    if s != "" {
      NoDelNoChange(s[1..]);
    }
  }

  lemma HexPair(s: string, high: char, low: char)
    requires s == "00" + [high, low]
    requires HexValue(high).Some? && HexValue(low).Some?
    ensures HexNumber(s) == Some(16 * HexValue(high).value + HexValue(low).value)
  {
    assert "0"[..0] == "" && "00"[..1] == "0" && ("00" + [high])[..2] == "00";
    assert HexNumber("0") == Some(0);
    assert HexNumber("00") == Some(0);
    assert HexNumber("00" + [high]) == HexValue(high);
    assert s[..3] == "00" + [high];
  }

  lemma HexDigitReads(n: int)
    requires 0 <= n < 16
    ensures HexValue(HEX[n]) == Some(n)
  {
  }

  /** A `\u00XX` escape reads as its character. */
  lemma HexEscapeReads(s: string, high: int, low: int, rest: string)
    requires 0 <= high < 8 && 0 <= low < 16 && s == "\\u00" + [HEX[high], HEX[low]] + rest
    ensures TomlBody(s) == Plus((16 * high + low) as char, TomlBody(rest))
  {
    HexDigitReads(high);
    HexDigitReads(low);
    assert s[2..6] == "00" + [HEX[high], HEX[low]];
    HexPair(s[2..6], HEX[high], HEX[low]);
    assert s[6..] == rest;
  }

  lemma UnescapedReads(c: char, rest: string)
    requires Unescaped(c)
    ensures TomlBody([c] + rest) == Plus(c, TomlBody(rest))
  {
    assert ([c] + rest)[1..] == rest;
  }

  /** A two-character escape reads as what it stands for. */
  lemma SimpleEscapeReads(s: string, spelling: char, c: char, rest: string)
    requires s == ['\\', spelling] + rest && SimpleEscape(spelling) == Some(c)
    ensures TomlBody(s) == Plus(c, TomlBody(rest))
  {
    assert s[2..] == rest;
  }

  /** Every character is read back from its spelling. */
  lemma EscapeReads(c: char, rest: string)
    ensures TomlBody(TomlEscape(c) + rest) == Plus(c, TomlBody(rest))
  {
    var s := TomlEscape(c) + rest;
    if c == DEL {
      HexEscapeReads(s, 7, 15, rest);
    } else if ShortEscape(c).Some? {
      SimpleEscapeReads(s, ShortEscape(c).value, c, rest);
    } else if c < ' ' {
      HexEscapeReads(s, c as int / 16, c as int % 16, rest);
    } else {
      UnescapedReads(c, rest);
    }
  }

  /** A string spelled character by character. */
  function TomlSpelling(value: string): string {
    if value == "" then "" else TomlEscape(value[0]) + TomlSpelling(value[1..])
  }

  /** The encoder's two passes come to that. */
  lemma {:induction false} TwoPassesSpell(value: string)
    ensures ReplaceDel(JsonEscapeAll(value)) == TomlSpelling(value)
  {
    if value != "" {
      TwoPassesSpell(value[1..]);
      ReplaceDelJoins(JsonEscape(value[0]), JsonEscapeAll(value[1..]));
      EscapeHoldsNoDel(value[0]);
    }
  }

  lemma OneMoreReads(c: char, rest: string, spelled: string, whole: string)
    requires TomlBody(spelled) == Some(rest) && whole == TomlEscape(c) + spelled
    ensures TomlBody(whole) == Some([c] + rest)
  {
    EscapeReads(c, spelled);
  }

  lemma {:induction false} SpellingReads(value: string, whole: string)
    requires whole == TomlSpelling(value) + "\""
    ensures TomlBody(whole) == Some(value)
    decreases |value|
  {
    if value == "" {
      assert whole == "\"";
    } else {
      var c, rest := value[0], value[1..];
      var spelled := TomlSpelling(rest) + "\"";
      assert whole == TomlEscape(c) + spelled && value == [c] + rest;
      SpellingReads(rest, spelled);
      OneMoreReads(c, rest, spelled, whole);
    }
  }

  /** The TOML round trip, for every string. */
  lemma TomlRoundTrip(value: string)
    ensures TomlRead(TomlBasicString(value)) == Some(value)
  {
    ReplaceDelJoins("\"" + JsonEscapeAll(value), "\"");
    ReplaceDelJoins("\"", JsonEscapeAll(value));
    NoDelNoChange("\"");
    TwoPassesSpell(value);
    SpellingReads(value, TomlSpelling(value) + "\"");
    assert TomlBasicString(value) == "\"" + (ReplaceDel(JsonEscapeAll(value)) + "\"");
    assert TomlBasicString(value)[1..] == ReplaceDel(JsonEscapeAll(value)) + "\"";
  }

  // ----- the launch command -----

  /** The program each harness is launched as. */
  function Program(harness: Harness): string {
    match harness
    case Claude => "claude"
    case Cursor => "cursor-agent"
    case Codex => "codex"
  }

  /** Cursor takes an effort only as the listed model id it is part of. */
  function CursorModel(model: string, effort: string, listed: seq<string>): string {
    if model == "" || effort == "" then model
    else if EndsWith(model, "-" + effort) && model in listed then model
    else if model + "-" + effort in listed then model + "-" + effort
    else model
  }

  predicate EndsWith(s: string, suffix: string) {
    |suffix| <= |s| && s[|s| - |suffix|..] == suffix
  }

  function ModelAndEffortArgs(harness: Harness, model: string, effort: string): seq<string> {
    var args := if model == "" then [] else ["--model", ShellQuote(model)];
    if effort == "" || harness.Cursor? then args
    else if harness.Codex? then args + ["-c", ShellQuote("model_reasoning_effort=\"" + effort + "\"")]
    else args + ["--effort", ShellQuote(effort)]
  }

  function InstructionArgs(harness: Harness, instructions: string): seq<string> {
    if instructions == "" || harness.Cursor? then []
    else if harness.Claude? then ["--append-system-prompt", ShellQuote(instructions)]
    else ["-c", ShellQuote("developer_instructions=" + TomlBasicString(instructions))]
  }

  /** The launch command of an agent definition. An empty model, effort or instructions is an absent one. */
  function LaunchCommand(harness: Harness, asked: string, effort: string, instructions: string,
                         listed: seq<string>): string
  {
    var model := if harness.Cursor? then CursorModel(asked, effort, listed) else asked;
    JoinWords([Program(harness)] + ModelAndEffortArgs(harness, model, effort) + InstructionArgs(harness, instructions))
  }

  // The arguments the program should be started with, as plain words.

  function ModelAndEffortWords(harness: Harness, model: string, effort: string): seq<string> {
    (if model == "" then [] else ["--model", model])
    + (if effort == "" then []
       else match harness
         case Claude => ["--effort", effort]
         case Codex => ["-c", "model_reasoning_effort=\"" + effort + "\""]
         case Cursor => [])
  }

  function InstructionWords(harness: Harness, instructions: string): seq<string> {
    if instructions == "" then []
    else match harness
      case Claude => ["--append-system-prompt", instructions]
      case Codex => ["-c", "developer_instructions=" + TomlBasicString(instructions)]
      case Cursor => []
  }

  function Argv(harness: Harness, model: string, effort: string, instructions: string): seq<string> {
    [Program(harness)] + ModelAndEffortWords(harness, model, effort) + InstructionWords(harness, instructions)
  }

  lemma ProgramIsBare(harness: Harness)
    ensures SpellsAll([Program(harness)], [Program(harness)])
  {
    assert IsBare("claude") && IsBare("cursor-agent") && IsBare("codex");
  }

  lemma FlagIsSpelled(flag: string, value: string)
    requires IsBare(flag)
    ensures SpellsAll([flag, ShellQuote(value)], [flag, value])
  {
  }

  lemma SpellsJoin(a: seq<string>, b: seq<string>, v: seq<string>, w: seq<string>)
    requires SpellsAll(a, v) && SpellsAll(b, w)
    ensures SpellsAll(a + b, v + w)
  {
    forall i | 0 <= i < |v + w|
      ensures Spells((a + b)[i], (v + w)[i])
    {
    }
  }

  lemma ModelAndEffortAreSpelled(harness: Harness, model: string, effort: string)
    ensures SpellsAll(ModelAndEffortArgs(harness, model, effort), ModelAndEffortWords(harness, model, effort))
  {
    assert IsBare("--model") && IsBare("--effort") && IsBare("-c");
    var args: seq<string>, words: seq<string> := [], [];
    if model != "" {
      args, words := ["--model", ShellQuote(model)], ["--model", model];
      FlagIsSpelled("--model", model);
    }
    if effort != "" && !harness.Cursor? {
      var flag := if harness.Codex? then "-c" else "--effort";
      var value := if harness.Codex? then "model_reasoning_effort=\"" + effort + "\"" else effort;
      FlagIsSpelled(flag, value);
      SpellsJoin(args, [flag, ShellQuote(value)], words, [flag, value]);
    }
  }

  lemma InstructionsAreSpelled(harness: Harness, instructions: string)
    ensures SpellsAll(InstructionArgs(harness, instructions), InstructionWords(harness, instructions))
  {
    assert IsBare("--append-system-prompt") && IsBare("-c");
    FlagIsSpelled("--append-system-prompt", instructions);
    FlagIsSpelled("-c", "developer_instructions=" + TomlBasicString(instructions));
  }

  function LaunchModel(harness: Harness, asked: string, effort: string, listed: seq<string>): string {
    if harness.Cursor? then CursorModel(asked, effort, listed) else asked
  }

  /** The shell starts the program with exactly its arguments, unless one of them holds a NUL. */
  lemma LaunchCommandSplitsIff(harness: Harness, asked: string, effort: string, instructions: string,
                               listed: seq<string>, model: string)
    requires model == LaunchModel(harness, asked, effort, listed)
    ensures var argv := Argv(harness, model, effort, instructions);
            ShellSplit(LaunchCommand(harness, asked, effort, instructions, listed))
            == if AllNulFree(argv) then Some(argv) else None
  {
    var head := [Program(harness)];
    var middle, words := ModelAndEffortArgs(harness, model, effort), ModelAndEffortWords(harness, model, effort);
    ProgramIsBare(harness);
    ModelAndEffortAreSpelled(harness, model, effort);
    InstructionsAreSpelled(harness, instructions);
    SpellsJoin(head, middle, head, words);
    var last := InstructionArgs(harness, instructions);
    SpellsJoin(head + middle, last, head + words, InstructionWords(harness, instructions));
    SplitsBackIff(head + middle + last, Argv(harness, model, effort, instructions));
  }

  // ----- what codex reads -----

  function KeyLength(arg: string): nat {
    if arg == "" || arg[0] == '=' then 0 else 1 + KeyLength(arg[1..])
  }

  /** The string a `key=value` override sets `key` to: what follows the first `=`, as TOML. */
  function Override(arg: string, key: string): Option<string> {
    if |key| < |arg| && KeyLength(arg) == |key| && key <= arg then TomlRead(arg[|key| + 1..]) else None
  }

  lemma {:induction false} KeyEndsAtEquals(key: string, value: string)
    requires '=' !in key
    ensures KeyLength(key + "=" + value) == |key|
  {
    if key != "" {
      assert (key + "=" + value)[1..] == key[1..] + "=" + value;
      KeyEndsAtEquals(key[1..], value);
    }
  }

  lemma OverrideReads(key: string, value: string)
    requires '=' !in key
    ensures Override(key + "=" + value, key) == TomlRead(value)
  {
    KeyEndsAtEquals(key, value);
    assert (key + "=" + value)[|key| + 1..] == value;
  }

  lemma InstructionsOverride(instructions: string)
    ensures Override("developer_instructions=" + TomlBasicString(instructions), "developer_instructions")
            == Some(instructions)
  {
    OverrideReads("developer_instructions", TomlBasicString(instructions));
    TomlRoundTrip(instructions);
    assert "developer_instructions" + "=" == "developer_instructions=";
  }

  /** The whole way of the instructions: through the shell's words and the harness's own syntax they arrive
      as they were written. Codex takes any string; claude any that a command line can carry. */
  lemma InstructionsArrive(harness: Harness, asked: string, effort: string, instructions: string, listed: seq<string>,
                           argv: seq<string>)
    requires instructions != "" && !harness.Cursor?
    requires ShellSplit(LaunchCommand(harness, asked, effort, instructions, listed)) == Some(argv)
    ensures |argv| >= 3
    ensures harness.Claude? ==> argv[|argv| - 2..] == ["--append-system-prompt", instructions]
    ensures harness.Codex? ==> argv[|argv| - 2] == "-c"
                               && Override(argv[|argv| - 1], "developer_instructions") == Some(instructions)
  {
    LaunchCommandSplitsIff(harness, asked, effort, instructions, listed, asked);
    var words := InstructionWords(harness, instructions);
    assert argv == [Program(harness)] + ModelAndEffortWords(harness, asked, effort) + words;
    assert argv[|argv| - 2..] == words;
    InstructionsOverride(instructions);
  }

  lemma {:induction false} PlainBodyReads(s: string)
    requires forall i :: 0 <= i < |s| ==> Unescaped(s[i])
    ensures TomlBody(s + "\"") == Some(s)
  {
    if s == "" {
      assert s + "\"" == "\"";
    } else {
      assert (s + "\"")[1..] == s[1..] + "\"";
      PlainBodyReads(s[1..]);
      assert [s[0]] + s[1..] == s;
    }
  }

  lemma DropKeepsEnd(s: string, end: string, n: nat)
    requires n <= |s|
    ensures (s + end)[n..] == s[n..] + end
  {
  }

  /** An escape makes a body mean something shorter. */
  lemma {:induction false} BodyShrinks(s: string)
    requires TomlBody(s + "\"").Some?
    ensures |TomlBody(s + "\"").value| <= |s|
    ensures |TomlBody(s + "\"").value| == |s| ==> forall i :: 0 <= i < |s| ==> Unescaped(s[i])
    decreases |s|
  {
    var body := s + "\"";
    if s != "" {
      if Unescaped(s[0]) {
        DropKeepsEnd(s, "\"", 1);
        BodyShrinks(s[1..]);
      } else {
        var digits := if SimpleEscape(body[1]).Some? then 0 else if body[1] == 'u' then 4 else 8;
        assert |s| >= 2 + digits;
        DropKeepsEnd(s, "\"", 2 + digits);
        BodyShrinks(s[2 + digits..]);
      }
    }
  }

  lemma EffortOverrideIff(effort: string)
    ensures Override("model_reasoning_effort=\"" + effort + "\"", "model_reasoning_effort") == Some(effort)
            <==> forall i :: 0 <= i < |effort| ==> Unescaped(effort[i])
  {
    var value := "\"" + effort + "\"";
    assert "model_reasoning_effort" + "=" + value == "model_reasoning_effort=\"" + effort + "\"";
    OverrideReads("model_reasoning_effort", value);
    assert value[1..] == effort + "\"";
    if forall i :: 0 <= i < |effort| ==> Unescaped(effort[i]) {
      PlainBodyReads(effort);
    } else if TomlRead(value) == Some(effort) {
      BodyShrinks(effort);
    }
  }

  /** A codex effort is put between quotes without escaping, so it arrives as it was written if and only if
      no character of it needs an escape. */
  lemma EffortArrivesIff(model: string, effort: string, instructions: string, argv: seq<string>, at: nat)
    requires effort != "" && argv == Argv(Codex, model, effort, instructions) && at == if model == "" then 1 else 3
    ensures |argv| >= at + 2 && argv[at] == "-c"
    ensures Override(argv[at + 1], "model_reasoning_effort") == Some(effort)
            <==> forall i :: 0 <= i < |effort| ==> Unescaped(effort[i])
  {
    EffortOverrideIff(effort);
    assert argv[at + 1] == "model_reasoning_effort=\"" + effort + "\"";
  }
  /** The model and, with claude, the effort reach the program as the flags' own arguments. */
  lemma ModelAndEffortArrive(harness: Harness, model: string, effort: string, instructions: string, argv: seq<string>,
                             at: nat)
    requires argv == Argv(harness, model, effort, instructions) && at == if model == "" then 1 else 3
    ensures argv[0] == match harness case Claude => "claude" case Cursor => "cursor-agent" case Codex => "codex"
    ensures model != "" ==> |argv| >= 3 && argv[1..3] == ["--model", model]
    ensures harness.Claude? && effort != "" ==> |argv| >= at + 2 && argv[at..at + 2] == ["--effort", effort]
    ensures instructions == "" && effort == "" ==> |argv| == at
  {
  }

  /** With cursor an effort rides on the model: the listed id that ends in it is launched, the asked one itself
      when it is such an id, and without one the model as it was asked for. */
  lemma CursorEffortIff(asked: string, effort: string, listed: seq<string>)
    requires asked != "" && effort != ""
    ensures var model, flat := CursorModel(asked, effort, listed), asked + "-" + effort;
            && (model in {asked, flat})
            && (model in listed && EndsWith(model, "-" + effort) <==>
                  (asked in listed && EndsWith(asked, "-" + effort)) || flat in listed)
            && (asked in listed && EndsWith(asked, "-" + effort) ==> model == asked)
            && (flat !in listed ==> model == asked)
  {
    var flat := asked + "-" + effort;
    assert flat == asked + ("-" + effort);
    assert flat[|asked|..] == "-" + effort;
  }
}
