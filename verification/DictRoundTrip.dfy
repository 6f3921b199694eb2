/** Converting a dictionary and looking a word up in the result gives back the
    definition of the first entry with that word. */
module DictRoundTrip {
  import opened DictConvert
  import opened DictLookup
  import opened Texts
  import Payload

  datatype Entry = Entry(word: string, lines: seq<string>)

  predicate Clean(s: string) { '\n' !in s && NUL !in s }

  predicate WellFormed(e: Entry) {
    && 1 <= |e.word| <= 31 && Clean(e.word)
    && forall k :: 0 <= k < |e.lines| ==> 1 <= |e.lines[k]| <= 510 && Clean(e.lines[k])
  }

  ghost predicate AllWellFormed(es: seq<Entry>) {
    forall i :: 0 <= i < |es| ==> WellFormed(es[i])
  }

  /** The lines of a definition as they stand in the file. */
  function Joined(lines: seq<string>): string {
    if lines == [] then "" else (lines[0] + "\n") + Joined(lines[1..])
  }

  /** An entry as it stands in the file. */
  function Body(e: Entry): string {
    (e.word + "\n") + Joined(e.lines)
  }

  /** Entries with a blank line behind each. */
  function Closed(es: seq<Entry>): string {
    if es == [] then "" else Body(es[0]) + ("\n" + Closed(es[1..]))
  }

  /** The blank line is optional behind the last entry. */
  function FileOf(es: seq<Entry>, closed: bool): string {
    if closed || es == [] then Closed(es) else Closed(es[..|es| - 1]) + Body(es[|es| - 1])
  }

  function RecordOf(e: Entry): string {
    Record(e.word, Cut(Joined(e.lines)))
  }

  function Packed(es: seq<Entry>): string {
    if es == [] then "" else RecordOf(es[0]) + Packed(es[1..])
  }

  // Reading the lines back.

  lemma {:induction false} LineLengthOf(line: string, tail: string, room: nat)
    requires '\n' !in line && |line| < room
    ensures LineLength(line + "\n" + tail, room) == |line| + 1
  {
    var s := line + "\n" + tail;
    if line != "" {
      assert s[0] == line[0] != '\n';
      assert s[1..] == line[1..] + "\n" + tail;
      LineLengthOf(line[1..], tail, room - 1);
    }
  }

  lemma {:induction false} LineOf(line: string, tail: string)
    requires '\n' !in line && |line| <= BIGLINE - 2
    ensures Line((line + "\n") + tail) == line + "\n" && Rest((line + "\n") + tail) == tail
  {
    LineLengthOf(line, tail, BIGLINE - 1);
  }

  lemma {:induction false} CutOfCut(a: string, b: string)
    ensures Cut(Cut(a) + b) == Cut(a + b)
  {
  }

  /** A definition is read up to the blank line, or to the end of the file. */
  lemma {:induction false} DefinitionOf(lines: seq<string>, tail: string, more: string, before: string)
    requires forall k :: 0 <= k < |lines| ==> 0 < |lines[k]| <= BIGLINE - 2 && Clean(lines[k])
    requires (tail == "" && more == "") || tail == "\n" + more
    ensures Definition(Joined(lines) + tail, Cut(before)) == Reading(Cut(before + Joined(lines)), more, tail == "")
    decreases |lines|
  {
    if lines == [] {
      assert Joined(lines) + tail == tail && before + Joined(lines) == before;
      if tail != "" {
        LineOf("", more);
        assert "" + "\n" + more == tail;
      }
    } else {
      var line, others := lines[0] + "\n", Joined(lines[1..]);
      assert Joined(lines) + tail == line + (others + tail);
      LineOf(lines[0], others + tail);
      DefinitionStep(line + (others + tail), Cut(before));
      CutOfCut(before, line);
      DefinitionOf(lines[1..], tail, more, before + line);
      assert before + Joined(lines) == (before + line) + others;
    }
  }

  lemma {:induction false} OutputStep(s: string, word: string, def: Reading)
    requires s != "" && Token(Line(s)) == word && 0 < |word| < WORD && Definition(Rest(s), "") == def
    ensures Output(s, false) == Prefixed(Record(word, def.text), Output(def.rest, def.eof))
  {
  }

  lemma {:induction false} EntryDefinition(e: Entry, tail: string, more: string)
    requires WellFormed(e) && ((tail == "" && more == "") || tail == "\n" + more)
    ensures Definition(Joined(e.lines) + tail, "") == Reading(Cut(Joined(e.lines)), more, tail == "")
  {
    DefinitionOf(e.lines, tail, more, "");
    assert "" + Joined(e.lines) == Joined(e.lines);
  }

  /** One entry is read up to its blank line, or to the end of the file. */
  lemma {:induction false} EntryOutput(e: Entry, tail: string, more: string)
    requires WellFormed(e) && ((tail == "" && more == "") || tail == "\n" + more)
    ensures Output(Body(e) + tail, false) == Prefixed(RecordOf(e), Output(more, tail == ""))
  {
    var s := (e.word + "\n") + (Joined(e.lines) + tail);
    assert Body(e) + tail == s;
    LineOf(e.word, Joined(e.lines) + tail);
    assert Token(e.word + "\n") == e.word;
    EntryDefinition(e, tail, more);
    OutputStep(s, e.word, Reading(Cut(Joined(e.lines)), more, tail == ""));
  }

  lemma {:induction false} PrefixedTwice(a: string, b: string, r: Result<string>)
    ensures Prefixed(a, Prefixed(b, r)) == Prefixed(a + b, r)
  {
    if r.Ok? {
      Regroup(a, b, r.value);
    }
  }

  /** Well-formed entries are converted one record each, in order, and what follows them
      is converted as if it stood alone. */
  lemma {:induction false} OutputOfEntries(es: seq<Entry>, tail: string)
    requires AllWellFormed(es)
    ensures Output(Closed(es) + tail, false) == Prefixed(Packed(es), Output(tail, false))
  {
    if es == [] {
      assert Closed(es) + tail == tail;
      PrefixedEmpty("", Output(tail, false));
    } else {
      assert WellFormed(es[0]);
      var more := Closed(es[1..]) + tail;
      assert Closed(es) + tail == Body(es[0]) + ("\n" + more);
      EntryOutput(es[0], "\n" + more, more);
      OutputOfEntries(es[1..], tail);
      PrefixedTwice(RecordOf(es[0]), Packed(es[1..]), Output(tail, false));
    }
  }

  lemma {:induction false} PackedSnoc(es: seq<Entry>, e: Entry)
    ensures Packed(es + [e]) == Packed(es) + RecordOf(e)
  {
    if es == [] {
      assert es + [e] == [e] && [e][1..] == [];
      assert Packed([e]) == RecordOf(e) + "";
    } else {
      assert (es + [e])[0] == es[0] && (es + [e])[1..] == es[1..] + [e];
      PackedSnoc(es[1..], e);
      Regroup(RecordOf(es[0]), Packed(es[1..]), RecordOf(e));
    }
  }

  lemma {:induction false} LastEntry(e: Entry)
    requires WellFormed(e)
    ensures Output(Body(e), false) == Ok(RecordOf(e))
  {
    EntryOutput(e, "", "");
    assert Body(e) + "" == Body(e);
    PrefixedEmpty(RecordOf(e), Ok(""));
  }

  lemma {:induction false} PrefixedOk(a: string, b: string)
    ensures Prefixed(a, Ok(b)) == Ok(a + b)
  {
  }

  lemma {:induction false} ClosedFile(es: seq<Entry>)
    requires AllWellFormed(es)
    ensures Output(Closed(es), false) == Ok(Packed(es))
  {
    OutputOfEntries(es, "");
    assert Closed(es) + "" == Closed(es);
    PrefixedEmpty(Packed(es), Ok(""));
  }

  lemma {:induction false} OpenFile(init: seq<Entry>, e: Entry)
    requires AllWellFormed(init) && WellFormed(e)
    ensures Output(Closed(init) + Body(e), false) == Ok(Packed(init + [e]))
  {
    OutputOfEntries(init, Body(e));
    LastEntry(e);
    PrefixedOk(Packed(init), RecordOf(e));
    PackedSnoc(init, e);
  }

  /** The output is one record for each entry, in order. */
  lemma {:induction false} OutputOfFile(es: seq<Entry>, closed: bool)
    requires AllWellFormed(es)
    ensures Output(FileOf(es, closed), false) == Ok(Packed(es))
  {
    if closed || es == [] {
      assert FileOf(es, closed) == Closed(es);
      ClosedFile(es);
    } else {
      var init, e := es[..|es| - 1], es[|es| - 1];
      assert FileOf(es, closed) == Closed(init) + Body(e) && init + [e] == es;
      OpenFile(init, e);
    }
  }

  /** After any number of well-formed entries, a second blank line makes the converter use
      a null pointer, and a word of 32 or more characters does not fit its field. */
  lemma {:induction false} BadEntryFails(es: seq<Entry>, word: string, tail: string)
    requires AllWellFormed(es) && '\n' !in word && |word| <= 510 && (word == "" || |word| >= 32)
    ensures Output(Closed(es) + ((word + "\n") + tail), false) == if word == "" then NullWord else WordTooLong
  {
    OutputOfEntries(es, (word + "\n") + tail);
    LineOf(word, tail);
    assert Token(word + "\n") == word;
  }

  lemma {:induction false} PackedLength(es: seq<Entry>)
    requires AllWellFormed(es)
    ensures |Packed(es)| == 512 * |es|
  {
    if es != [] {
      assert WellFormed(es[0]);
      PackedLength(es[1..]);
    }
  }

  // Comparing padded words.

  function Trim(s: string): string {
    if s != "" && s[|s| - 1] == ' ' then Trim(s[..|s| - 1]) else s
  }

  lemma {:induction false} PadSnoc(s: string, n: nat)
    requires |s| < n
    ensures Pad(s, n) == Pad(s + " ", n)
  {
  }

  lemma {:induction false} TrimOfPad(s: string, n: nat)
    ensures Trim(Pad(s, n)) == Trim(s)
    decreases n - |s|
  {
    if |s| < n {
      PadSnoc(s, n);
      TrimOfPad(s + " ", n);
      assert (s + " ")[..|s + " "| - 1] == s;
    } else {
      assert Pad(s, n) == s;
    }
  }

  lemma {:induction false} PadOfTrim(s: string, n: nat)
    requires |s| <= n
    ensures |Trim(s)| <= |s| && Pad(Trim(s), n) == Pad(s, n)
  {
    if s != "" && s[|s| - 1] == ' ' {
      var init := s[..|s| - 1];
      PadOfTrim(init, n);
      PadSnoc(init, n);
      assert init + " " == s;
    }
  }

  lemma {:induction false} KeyIsPadded(word: string)
    requires |word| < WORD && NUL !in word
    ensures Key(word) == Pad(word, WORD - 1) == Payload.CString(Pad(word, WORD)[..WORD - 1])
  {
    assert Pad(word, WORD)[..WORD - 1] == Pad(word, WORD - 1);
    Payload.CStringOf(Pad(word, WORD - 1), "");
    assert Pad(word, WORD - 1) + "" == Pad(word, WORD - 1);
  }

  /** The padded words compare equal exactly when the words differ at most in trailing
      spaces. */
  lemma {:induction false} KeysEqualIff(a: string, b: string)
    requires |a| < WORD && |b| < WORD && NUL !in a && NUL !in b
    ensures Key(a) == Key(b) <==> Trim(a) == Trim(b)
  {
    KeyIsPadded(a);
    KeyIsPadded(b);
    TrimOfPad(a, WORD - 1);
    TrimOfPad(b, WORD - 1);
    PadOfTrim(a, WORD - 1);
    PadOfTrim(b, WORD - 1);
  }

  // The text that comes back.

  lemma {:induction false} SkipSnoc(s: string)
    ensures SkipBlanks(s + " ") == if SkipBlanks(s) == "" then "" else SkipBlanks(s) + " "
  {
    if s != "" && IsBlank(s[0]) {
      assert (s + " ")[0] == s[0] && (s + " ")[1..] == s[1..] + " ";
      SkipSnoc(s[1..]);
    } else if s == "" {
      assert s + " " == " " && " "[1..] == "";
    }
  }

  lemma {:induction false} TokenLengthSnoc(s: string)
    ensures TokenLength(s + " ") == TokenLength(s)
  {
    if s != "" && !IsBlank(s[0]) {
      assert (s + " ")[0] == s[0] && (s + " ")[1..] == s[1..] + " ";
      TokenLengthSnoc(s[1..]);
    }
  }

  lemma {:induction false} TokensSnoc(s: string)
    ensures Tokens(s + " ") == Tokens(s)
    decreases |s|
  {
    SkipSnoc(s);
    var t := SkipBlanks(s);
    if t != "" {
      TokenLengthSnoc(t);
      var k := TokenLength(t);
      assert (t + " ")[..k] == t[..k] && (t + " ")[k..] == t[k..] + " ";
      TokensSnoc(t[k..]);
    }
  }

  lemma {:induction false} TokensOfPad(s: string, n: nat)
    ensures Tokens(Pad(s, n)) == Tokens(s)
    decreases n - |s|
  {
    if |s| < n {
      PadSnoc(s, n);
      TokensSnoc(s);
      TokensOfPad(s + " ", n);
    } else {
      assert Pad(s, n) == s;
    }
  }

  lemma {:induction false} LoadedText(text: string, old_text: string)
    requires |text| <= TEXT - 1 && NUL !in text && |old_text| == TEXT
    ensures Tokens(Payload.CString(Loaded(Pad(text, TEXT), old_text))) == Tokens(text)
  {
    var loaded := Loaded(Pad(text, TEXT), old_text);
    assert loaded == Pad(text, TEXT - 1) + [NUL];
    Payload.CStringOf(Pad(text, TEXT - 1), [NUL]);
    TokensOfPad(text, TEXT - 1);
  }

  lemma {:induction false} JoinedHasNoNul(lines: seq<string>)
    requires forall k :: 0 <= k < |lines| ==> Clean(lines[k])
    ensures NUL !in Joined(lines)
  {
    if lines != [] {
      assert Clean(lines[0]);
      JoinedHasNoNul(lines[1..]);
    }
  }

  // The search.

  predicate Same(a: string, b: string) { Trim(a) == Trim(b) }

  /** The first entry with the word decides. */
  function FirstMatch(es: seq<Entry>, word: string): Outcome {
    if es == [] then NotFound
    else if Same(es[0].word, word) then Answer(Cut(Joined(es[0].lines)))
    else FirstMatch(es[1..], word)
  }

  lemma {:induction false} FieldsOfRecord(word: string, text: string, more: string)
    requires |word| < WORD && |text| < TEXT
    ensures var file := Record(word, text) + more;
            && |file| > WORD && file[..WORD - 1] == Pad(word, WORD)[..WORD - 1]
            && Take(Drop(file, WORD), TEXT) == Pad(text, TEXT) && Drop(Drop(file, WORD), TEXT) == more
  {
    var file := Record(word, text) + more;
    assert |Pad(word, WORD)| == WORD && |Pad(text, TEXT)| == TEXT;
    assert file == Pad(word, WORD) + (Pad(text, TEXT) + more);
    assert Drop(file, WORD) == Pad(text, TEXT) + more;
  }

  lemma {:induction false} ScanFindsFirst(es: seq<Entry>, word: string, old_text: string)
    requires AllWellFormed(es) && |word| < WORD && NUL !in word && |old_text| == TEXT
    ensures Scan(Packed(es), Key(word), old_text) == FirstMatch(es, word)
  {
    if es != [] {
      var e := es[0];
      assert WellFormed(e);
      var text := Cut(Joined(e.lines));
      JoinedHasNoNul(e.lines);
      FieldsOfRecord(e.word, text, Packed(es[1..]));
      KeyIsPadded(e.word);
      KeysEqualIff(e.word, word);
      LoadedText(text, old_text);
      if !Same(e.word, word) {
        ScanFindsFirst(es[1..], word, Loaded(Pad(text, TEXT), old_text));
      }
    }
  }

  lemma {:induction false} FirstMatchIs(es: seq<Entry>, word: string, i: nat)
    requires i < |es| && Same(es[i].word, word) && forall j :: 0 <= j < i ==> !Same(es[j].word, word)
    ensures FirstMatch(es, word) == Answer(Cut(Joined(es[i].lines)))
  {
    if i > 0 {
      FirstMatchIs(es[1..], word, i - 1);
    }
  }

  lemma {:induction false} NoMatch(es: seq<Entry>, word: string)
    ensures FirstMatch(es, word) == NotFound <==> forall i :: 0 <= i < |es| ==> !Same(es[i].word, word)
  {
    if es != [] {
      NoMatch(es[1..], word);
      if !Same(es[0].word, word) {
        assert forall i :: 0 < i < |es| ==> es[i] == es[1..][i - 1];
      }
    }
  }

  /** The round trip: every well-formed dictionary converts to 512 bytes an entry, and
      looking up a word in that gives the definition of its first entry, cut to what
      the field holds and with its white space normalised; NotFound exactly when no
      entry has the word. */
  lemma {:induction false} RoundTrip(es: seq<Entry>, closed: bool, word: string, old_text: string)
    requires AllWellFormed(es) && |word| < WORD && NUL !in word && |old_text| == TEXT
    ensures Output(FileOf(es, closed), false).Ok?
    ensures var file := Output(FileOf(es, closed), false).value;
            && |file| == 512 * |es|
            && (Scan(file, Key(word), old_text) == NotFound <==> forall i :: 0 <= i < |es| ==> !Same(es[i].word, word))
            && forall i :: 0 <= i < |es| && Same(es[i].word, word)
                           && (forall j :: 0 <= j < i ==> !Same(es[j].word, word))
                 ==> Scan(file, Key(word), old_text) == Answer(Cut(Joined(es[i].lines)))
  {
    OutputOfFile(es, closed);
    PackedLength(es);
    ScanFindsFirst(es, word, old_text);
    NoMatch(es, word);
    forall i | 0 <= i < |es| && Same(es[i].word, word) && (forall j :: 0 <= j < i ==> !Same(es[j].word, word))
      ensures FirstMatch(es, word) == Answer(Cut(Joined(es[i].lines)))
    {
      FirstMatchIs(es, word, i);
    }
  }

  // What normalising keeps.

  predicate Proper(t: string) {
    t != "" && forall k :: 0 <= k < |t| ==> !IsBlank(t[k])
  }

  lemma {:induction false} TokenIsProper(s: string)
    requires s != "" && !IsBlank(s[0])
    ensures Proper(s[..TokenLength(s)])
  {
    if |s| > 1 && !IsBlank(s[1]) {
      TokenIsProper(s[1..]);
      assert forall k :: 1 <= k < TokenLength(s) ==> s[k] == s[1..][..TokenLength(s[1..])][k - 1];
    } else if |s| > 1 {
      assert TokenLength(s[1..]) == 0;
    }
  }

  lemma {:induction false} TokensAreProper(s: string, i: nat)
    requires i < |Tokens(s)|
    ensures Proper(Tokens(s)[i])
    decreases |s|
  {
    var t := SkipBlanks(s);
    TokenIsProper(t);
    if i > 0 {
      TokensAreProper(t[TokenLength(t)..], i - 1);
    }
  }

  lemma {:induction false} OneToken(t: string, tail: string)
    requires Proper(t)
    ensures TokenLength(t + (" " + tail)) == |t|
  {
    var s := t + (" " + tail);
    assert s[0] == t[0] && s[1..] == t[1..] + (" " + tail);
    if |t| > 1 {
      OneToken(t[1..], tail);
    } else {
      assert s[1..] == " " + tail;
    }
  }

  lemma {:induction false} TokenThen(t: string, tail: string)
    requires Proper(t)
    ensures Tokens(t + (" " + tail)) == [t] + Tokens(tail)
  {
    var after := t + (" " + tail);
    OneToken(t, tail);
    FirstToken(after);
    assert after[..|t|] == t && after[|t|..] == " " + tail;
    TokensSkip(" " + tail);
    TokensSkip(tail);
    assert (" " + tail)[1..] == tail;
  }

  lemma {:induction false} SpacedThen(init: seq<string>, t: string, tail: string)
    ensures Spaced(init + [t]) + tail == Spaced(init) + (t + (" " + tail))
  {
    SpacedSnoc(init, t);
  }

  lemma {:induction false} TokensOfSpaced(ts: seq<string>, tail: string)
    requires forall i :: 0 <= i < |ts| ==> Proper(ts[i])
    ensures Tokens(Spaced(ts) + tail) == ts + Tokens(tail)
    decreases |ts|
  {
    if ts == [] {
      assert Spaced(ts) + tail == tail && ts + Tokens(tail) == Tokens(tail);
    } else {
      var init, t := ts[..|ts| - 1], ts[|ts| - 1];
      assert ts == init + [t];
      SpacedThen(init, t, tail);
      TokenThen(t, tail);
      TokensOfSpaced(init, t + (" " + tail));
      assert init + ([t] + Tokens(tail)) == (init + [t]) + Tokens(tail);
    }
  }

  /** The text returned has the tokens of the definition, and normalising it again
      changes nothing. */
  lemma {:induction false} NormalisedKeepsTokens(text: string)
    requires Answer(text).Found?
    ensures Tokens(Answer(text).text) == Tokens(text)
    ensures Answer(Answer(text).text) == Answer(text)
  {
    var ts := Tokens(text);
    forall i | 0 <= i < |ts| ensures Proper(ts[i]) {
      TokensAreProper(text, i);
    }
    TokensOfSpaced(ts, "");
    assert Spaced(ts) + "" == Spaced(ts) && ts + Tokens("") == ts;
  }

  /** There is nothing to return exactly when the text is all white space. */
  lemma {:induction false} NullTextIff(text: string)
    ensures Answer(text) == NullText <==> forall k :: 0 <= k < |text| ==> text[k] in {' ', '\t', '\n'}
  {
    SkipsAllIff(text);
  }

  lemma {:induction false} SkipsAllIff(s: string)
    ensures SkipBlanks(s) == "" <==> forall k :: 0 <= k < |s| ==> IsBlank(s[k])
  {
    if s != "" && IsBlank(s[0]) {
      SkipsAllIff(s[1..]);
      assert forall k :: 1 <= k < |s| ==> s[k] == s[1..][k - 1];
    }
  }

  // The answer fits the field it is copied into.

  lemma {:induction false} SpacedCons(t: string, ts: seq<string>)
    ensures Spaced([t] + ts) == (t + " ") + Spaced(ts)
    decreases |ts|
  {
    if ts == [] {
      SpacedSnoc([], t);
      assert [t] + ts == [] + [t] && Spaced([]) + (t + " ") == (t + " ") + "";
    } else {
      var init, last := ts[..|ts| - 1], ts[|ts| - 1];
      SpacedCons(t, init);
      SpacedSnoc([t] + init, last);
      SpacedSnoc(init, last);
      assert [t] + ts == ([t] + init) + [last] && ts == init + [last];
      Regroup(t + " ", Spaced(init), last + " ");
    }
  }

  lemma {:induction false} TokenEndsAtBlank(s: string)
    ensures TokenLength(s) < |s| ==> IsBlank(s[TokenLength(s)])
  {
    if s != "" && !IsBlank(s[0]) {
      TokenEndsAtBlank(s[1..]);
    }
  }

  lemma {:induction false} SpacedLength(s: string)
    ensures |Spaced(Tokens(s))| <= |s| + 1
    decreases |s|
  {
    var t := SkipBlanks(s);
    if t != "" {
      var k := TokenLength(t);
      var rest := t[k..];
      SpacedCons(t[..k], Tokens(rest));
      if rest != "" {
        TokenEndsAtBlank(t);
        SpacedLength(rest[1..]);
        TokensSkip(rest);
        TokensSkip(rest[1..]);
      }
    }
  }

  lemma {:induction false} CStringStops(s: string, i: nat)
    requires i < |s| && s[i] == NUL
    ensures |Payload.CString(s)| <= i
  {
    if s[0] != NUL {
      CStringStops(s[1..], i - 1);
    }
  }

  /** Whatever the file and the buffer hold, the text found is no longer than the field of
      480 characters it is copied into. */
  lemma {:induction false} FoundFits(file: string, key: string, old_text: string)
    requires |old_text| == TEXT
    ensures Scan(file, key, old_text).Found? ==> |Scan(file, key, old_text).text| <= 480
    decreases |file|
  {
    if |file| > WORD {
      var text := Loaded(Take(Drop(file, WORD), TEXT), old_text);
      CStringStops(text, TEXT - 1);
      SpacedLength(Payload.CString(text));
      FoundFits(Drop(Drop(file, WORD), TEXT), key, text);
    }
  }
}
