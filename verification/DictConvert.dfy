/** convert: a text of words and definitions becomes fixed-length records, padded with
    spaces. */
module DictConvert {
  import opened Texts

  const WORD := 32
  const TEXT := 480
  const BIGLINE := 512

  /** What one call reads: up to and with a newline, at most BIGLINE - 1 characters. */
  function LineLength(s: string, room: nat): (n: nat)
    ensures n <= |s| && n <= room
    ensures s != "" && room > 0 ==> n > 0
  {
    if s == "" || room == 0 then 0
    else if s[0] == '\n' then 1
    else 1 + LineLength(s[1..], room - 1)
  }

  function Line(s: string): string { s[..LineLength(s, BIGLINE - 1)] }

  function Rest(s: string): string { s[LineLength(s, BIGLINE - 1)..] }

  lemma RestIsShorter(s: string)
    requires s != ""
    ensures |Rest(s)| < |s| && Line(s) != ""
  {
  }

  /** All but a final newline; empty when there is nothing else. */
  function Token(line: string): string {
    if line != "" && line[|line| - 1] == '\n' then line[..|line| - 1] else line
  }

  function Cut(text: string): string {
    if |text| <= TEXT - 1 then text else text[..TEXT - 1]
  }

  /** What the rest of the definition adds, where reading goes on, and whether the end of
      the file was met. */
  datatype Reading = Reading(text: string, rest: string, eof: bool)

  function Definition(s: string, text: string): (r: Reading)
    ensures |r.rest| <= |s|
    decreases |s|
  {
    if s == "" then Reading(text, "", true)
    else
      RestIsShorter(s);
      if Line(s) == "\n" then Reading(text, Rest(s), false)
      else Definition(Rest(s), Cut(text + Line(s)))
  }

  /** A blank line where a word is due makes the program use a null pointer, and a word
      that does not fit its field runs into the next one. */
  datatype Result<+T> = Ok(value: T) | NullWord | WordTooLong

  function Pad(s: string, n: nat): string {
    s + seq(if |s| < n then n - |s| else 0, _ => ' ')
  }

  function Record(word: string, text: string): string {
    Pad(word, WORD) + Pad(text, TEXT)
  }

  /** The output for what is left of the input. */
  function Output(s: string, eof: bool): Result<string>
    decreases |s|
  {
    if eof || s == "" then Ok("")
    else
      RestIsShorter(s);
      var word := Token(Line(s));
      if word == "" then NullWord
      else if |word| >= WORD then WordTooLong
      else
        var def := Definition(Rest(s), "");
        match Output(def.rest, def.eof)
        case Ok(more) => Ok(Record(word, def.text) + more)
        case other => other
  }

  /** Writes a field and pads it, one space at a time. */
  method WriteField(before: string, field: string, width: nat) returns (out: string)
    ensures out == before + Pad(field, width)
  {
    out := before + field;
    var num := |field|;
    while num < width
      invariant |field| <= num && (num <= width || num == |field|)
      invariant out == before + (field + seq(num - |field|, _ => ' '))
    {
      out := out + " ";
      num := num + 1;
    }
  }

  lemma {:induction false} DefinitionStep(s: string, text: string)
    requires s != "" && Line(s) != "\n"
    ensures Definition(s, text) == Definition(Rest(s), Cut(text + Line(s)))
  {
  }

  lemma {:induction false} AppendIsCut(text: string, line: string)
    requires |text| <= TEXT - 1
    ensures var room := TEXT - |text| - 1;
            Cut(text + line) == text + line[..if |line| < room then |line| else room]
  {
  }

  /** Reads a definition line by line into a text field. */
  method ReadDefinition(input: string) returns (text: string, rest: string, eof: bool)
    ensures Reading(text, rest, eof) == Definition(input, "")
  {
    text, rest, eof := "", input, false;
    while rest != "" && Line(rest) != "\n"
      invariant Definition(rest, text) == Definition(input, "") && |text| <= TEXT - 1
      decreases |rest|
    {
      RestIsShorter(rest);
      DefinitionStep(rest, text);
      AppendIsCut(text, Line(rest));
      var line := Line(rest);
      var room := TEXT - |text| - 1;
      text := text + line[..if |line| < room then |line| else room];
      rest := Rest(rest);
    }
    if rest == "" {
      eof := true;
    } else {
      rest := Rest(rest);
    }
  }

  function Prefixed(out: string, r: Result<string>): Result<string> {
    match r
    case Ok(more) => Ok(out + more)
    case other => other
  }

  lemma {:induction false} PrefixedEmpty(out: string, r: Result<string>)
    ensures Prefixed("", r) == r && Prefixed(out, Ok("")) == Ok(out)
  {
    if r.Ok? {
      assert "" + r.value == r.value;
    }
    assert out + "" == out;
  }

  /** One word and its definition: the record is written, and reading goes on behind it. */
  method ConvertEntry(here: string, done: string) returns (out: Result<string>, rest: string, eof: bool)
    requires here != ""
    ensures match out
            case Ok(written) =>
              |rest| < |here| && Prefixed(done, Output(here, false)) == Prefixed(written, Output(rest, eof))
            case other => Output(here, false) == other
  {
    RestIsShorter(here);
    var word := Token(Line(here));
    rest, eof := "", false;
    if word == "" {
      return NullWord, rest, eof;
    }
    if |word| >= WORD {
      return WordTooLong, rest, eof;
    }
    var text: string;
    text, rest, eof := ReadDefinition(Rest(here));
    var written := WriteField(done, word, WORD);
    written := WriteField(written, text, TEXT);
    out := Ok(written);
    OneRecord(done, word, text, here, rest, eof);
    Regroup(done, Pad(word, WORD), Pad(text, TEXT));
  }

  lemma {:induction false} OneRecord(done: string, word: string, text: string, here: string, rest: string, eof: bool)
    requires here != "" && word == Token(Line(here)) && 0 < |word| < WORD
    requires Definition(Rest(here), "") == Reading(text, rest, eof)
    ensures Prefixed(done, Output(here, false)) == Prefixed(done + Record(word, text), Output(rest, eof))
  {
    match Output(rest, eof)
    case Ok(more) => Regroup(done, Record(word, text), more);
    case _ =>
  }

  method Convert(input: string) returns (r: Result<string>)
    ensures r == Output(input, false)
  {
    r := Ok("");
    var rest, eof := input, false;
    PrefixedEmpty("", Output(input, false));
    while r.Ok? && !eof && rest != ""
      invariant match r
                case Ok(out) => Output(input, false) == Prefixed(out, Output(rest, eof))
                case other => Output(input, false) == other
      decreases r.Ok?, |rest|
    {
      r, rest, eof := ConvertEntry(rest, r.value);
    }
    if r.Ok? {
      PrefixedEmpty(r.value, Ok(""));
    }
  }

  // When the conversion succeeds, for any input.

  /** The input as the program reads it. */
  function Lines(s: string): seq<string>
    decreases |s|
  {
    if s == "" then []
    else
      RestIsShorter(s);
      [Line(s)] + Lines(Rest(s))
  }

  predicate IsWord(line: string) { 1 <= |Token(line)| <= 31 }

  /** A word is due behind a blank line, and at the start when due says so. */
  predicate WordDue(lines: seq<string>, i: nat, due: bool)
    requires i < |lines|
  {
    if i == 0 then due else lines[i - 1] == "\n"
  }

  ghost predicate WordsFit(lines: seq<string>, due: bool) {
    forall i :: 0 <= i < |lines| && WordDue(lines, i, due) ==> IsWord(lines[i])
  }

  lemma {:induction false} WordsFitCons(line: string, rest: seq<string>, due: bool)
    ensures WordsFit([line] + rest, due) <==> (due ==> IsWord(line)) && WordsFit(rest, line == "\n")
  {
    var lines := [line] + rest;
    assert WordDue(lines, 0, due) == due;
    forall i | 0 <= i < |rest|
      ensures WordDue(lines, i + 1, due) == WordDue(rest, i, line == "\n") && lines[i + 1] == rest[i]
    {
    }
    if WordsFit(rest, line == "\n") && (due ==> IsWord(line)) {
      forall i | 0 <= i < |lines| && WordDue(lines, i, due) ensures IsWord(lines[i]) {
        if i > 0 {
          assert WordDue(rest, i - 1, line == "\n");
        }
      }
    }
  }

  lemma {:induction false} WordsFitStep(s: string, due: bool)
    requires s != ""
    ensures WordsFit(Lines(s), due) <==> (due ==> IsWord(Line(s))) && WordsFit(Lines(Rest(s)), Line(s) == "\n")
  {
    RestIsShorter(s);
    WordsFitCons(Line(s), Lines(Rest(s)), due);
  }

  lemma {:induction false} DefinitionLeaves(s: string, text: string)
    ensures var r := Definition(s, text);
            && (WordsFit(Lines(s), false) <==> WordsFit(Lines(r.rest), true)) && (r.eof ==> r.rest == "")
    decreases |s|
  {
    if s != "" {
      RestIsShorter(s);
      WordsFitStep(s, false);
      if Line(s) != "\n" {
        DefinitionStep(s, text);
        DefinitionLeaves(Rest(s), Cut(text + Line(s)));
      }
    }
  }

  lemma {:induction false} FirstWord(s: string)
    requires s != ""
    ensures var def := Definition(Rest(s), "");
            Output(s, false).Ok? <==> IsWord(Line(s)) && Output(def.rest, def.eof).Ok?
  {
  }

  /** Any input converts if and only if its first line, and every line behind a blank line,
      is a word of 1 to 31 characters. */
  lemma {:induction false} ConvertsIff(s: string)
    ensures Output(s, false).Ok? <==> WordsFit(Lines(s), true)
    decreases |s|
  {
    if s != "" {
      RestIsShorter(s);
      var def := Definition(Rest(s), "");
      FirstWord(s);
      WordsFitStep(s, true);
      DefinitionLeaves(Rest(s), "");
      if !def.eof {
        ConvertsIff(def.rest);
      }
      assert IsWord(Line(s)) ==> Line(s) != "\n";
    }
  }
}
