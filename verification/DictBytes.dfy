/** The dictionary programs byte by byte: the lines as they are read, the records as they
    stand in the file, and the characters of an answer. */
module DictBytes {
  import opened DictConvert
  import opened DictLookup
  import opened DictRoundTrip
  import opened Texts
  import Payload

  /** Reading a line takes everything up to and with a newline, 511 characters at most, and
      nothing is lost. */
  lemma {:induction false} LineIs(s: string)
    ensures Line(s) + Rest(s) == s && |Line(s)| <= 511
    ensures forall k :: 0 <= k < |Line(s)| - 1 ==> Line(s)[k] != '\n'
    ensures Rest(s) != "" && |Line(s)| < 511 ==> Line(s) != "" && Line(s)[|Line(s)| - 1] == '\n'
  {
    LineLengthIs(s, BIGLINE - 1);
  }

  lemma {:induction false} LineLengthIs(s: string, room: nat)
    ensures var n := LineLength(s, room);
            && (forall k :: 0 <= k < n - 1 ==> s[k] != '\n')
            && (n < |s| && n < room ==> n > 0 && s[n - 1] == '\n')
  {
    if s != "" && room > 0 && s[0] != '\n' {
      LineLengthIs(s[1..], room - 1);
      var n := LineLength(s[1..], room - 1);
      assert forall k :: 1 <= k < n ==> s[k] == s[1..][k - 1];
    }
  }

  /** The word of a line is the line without its newline. */
  lemma {:induction false} TokenOfLine(s: string)
    ensures '\n' !in Token(Line(s)) && (Line(s) == Token(Line(s)) || Line(s) == Token(Line(s)) + "\n")
  {
    LineIs(s);
    var line := Line(s);
    if line != "" && line[|line| - 1] == '\n' {
      assert line == line[..|line| - 1] + "\n";
    }
  }

  function Spaces(n: nat): string { seq(n, _ => ' ') }

  lemma {:induction false} SliceOf(file: string, record: string, before: string, after: string, lo: nat, hi: nat)
    requires file == before + record + after && lo <= hi <= |record|
    ensures file[|before| + lo..|before| + hi] == record[lo..hi]
  {
  }

  lemma {:induction false} RecordLength(e: Entry)
    requires WellFormed(e)
    ensures |RecordOf(e)| == 512
  {
  }

  lemma {:induction false} RecordAt(es: seq<Entry>, i: nat) returns (before: string, after: string)
    requires AllWellFormed(es) && i < |es|
    ensures Packed(es) == before + RecordOf(es[i]) + after && |before| == 512 * i
  {
    var record, rest := RecordOf(es[0]), Packed(es[1..]);
    if i == 0 {
      before, after := "", rest;
    } else {
      before, after := RecordAt(es[1..], i - 1);
      assert WellFormed(es[0]);
      RecordLength(es[0]);
      Regroup(record, before + RecordOf(es[i]), after);
      Regroup(record, before, RecordOf(es[i]));
      before := record + before;
    }
  }

  /** At n the file holds the 512 bytes of an entry: 32 for the word and 480 for the definition
      cut to 479, each padded with spaces. */
  predicate HoldsEntry(file: string, n: nat, e: Entry) {
    var text := Joined(e.lines);
    && |e.word| <= 31 && n + 512 <= |file|
    && file[n..n + 32] == e.word + Spaces(32 - |e.word|)
    && file[n + 32..n + 512] == if |text| <= 479 then text + Spaces(480 - |text|) else text[..479] + Spaces(1)
  }

  lemma {:induction false} EntryBytes(file: string, e: Entry, before: string, after: string)
    requires file == before + RecordOf(e) + after && WellFormed(e)
    ensures HoldsEntry(file, |before|, e)
  {
    RecordLength(e);
    SliceOf(file, RecordOf(e), before, after, 0, 32);
    SliceOf(file, RecordOf(e), before, after, 32, 512);
    FieldsAre(e.word, Cut(Joined(e.lines)));
  }

  /** The output holds every entry, in order and 512 bytes each. */
  lemma {:induction false} OutputBytes(es: seq<Entry>, closed: bool) returns (file: string)
    requires AllWellFormed(es)
    ensures Output(FileOf(es, closed), false) == Ok(file) && |file| == 512 * |es|
    ensures forall i :: 0 <= i < |es| ==> HoldsEntry(file, 512 * i, es[i])
  {
    OutputOfFile(es, closed);
    PackedLength(es);
    file := Packed(es);
    forall i | 0 <= i < |es| ensures HoldsEntry(file, 512 * i, es[i]) {
      var before, after := RecordAt(es, i);
      assert WellFormed(es[i]);
      EntryBytes(file, es[i], before, after);
    }
  }

  lemma {:induction false} FieldsAre(word: string, text: string)
    requires |word| <= 31 && |text| <= 479
    ensures Record(word, text)[0..32] == word + Spaces(32 - |word|)
    ensures Record(word, text)[32..512] == text + Spaces(480 - |text|)
  {
  }

  /** One turn of the search, in bytes: without a byte behind the 32 of the word there is
      nothing; else up to 480 are read over the old text, and 31 and 479 of them count. */
  lemma {:induction false} SearchTurn(file: string, key: string, old_text: string)
    requires |old_text| == 480
    ensures |file| <= 32 ==> Scan(file, key, old_text) == NotFound
    ensures |file| > 32 ==>
              var end := if |file| < 512 then |file| else 512;
              var text := (file[32..end] + old_text[end - 32..])[..479];
              Scan(file, key, old_text) == if Payload.CString(file[..31]) == key then Answer(Payload.CString(text))
                                           else Scan(file[end..], key, text + ['\0'])
  {
    if |file| > 32 {
      var end := if |file| < 512 then |file| else 512;
      assert Take(Drop(file, WORD), TEXT) == file[32..end];
      var text := (file[32..end] + old_text[end - 32..])[..479];
      assert Loaded(file[32..end], old_text) == text + ['\0'];
      CStringStopsAt(text, ['\0']);
      assert Drop(Drop(file, WORD), TEXT) == file[end..];
    }
  }

  lemma {:induction false} CStringStopsAt(text: string, rest: string)
    requires rest != "" && rest[0] == '\0'
    ensures Payload.CString(text + rest) == Payload.CString(text)
  {
    if text == "" {
      assert text + rest == rest;
    } else {
      assert (text + rest)[0] == text[0] && (text + rest)[1..] == text[1..] + rest;
      CStringStopsAt(text[1..], rest);
    }
  }

  // The characters of an answer.

  /** Words with one space behind each: no tab, no newline, no space at the start, none beside
      another, and one at the end. */
  predicate CleanText(r: string) {
    && r != "" && '\t' !in r && '\n' !in r
    && r[0] != ' ' && r[|r| - 1] == ' '
    && forall k :: 0 <= k < |r| - 1 ==> r[k] != ' ' || r[k + 1] != ' '
  }

  function Squeezed(s: string): string {
    if s == "" then "" else (if s[0] in {' ', '\t', '\n'} then "" else [s[0]]) + Squeezed(s[1..])
  }

  lemma {:induction false} SqueezedAppend(a: string, b: string)
    ensures Squeezed(a + b) == Squeezed(a) + Squeezed(b)
  {
    if a == "" {
      assert a + b == b;
    } else {
      assert (a + b)[0] == a[0] && (a + b)[1..] == a[1..] + b;
      SqueezedAppend(a[1..], b);
    }
  }

  lemma {:induction false} SqueezedSkip(s: string)
    ensures Squeezed(SkipBlanks(s)) == Squeezed(s)
  {
    if s != "" && IsBlank(s[0]) {
      SqueezedSkip(s[1..]);
    }
  }

  lemma {:induction false} SqueezedSpace(token: string)
    ensures Squeezed(token + " ") == Squeezed(token)
  {
    SqueezedAppend(token, " ");
    assert " "[1..] == "" && Squeezed(" ") == "";
    assert Squeezed(token) + "" == Squeezed(token);
  }

  lemma {:induction false} SqueezedToken(token: string, spaced: string, rest: string)
    requires Squeezed(spaced) == Squeezed(rest)
    ensures Squeezed((token + " ") + spaced) == Squeezed(token + rest)
  {
    SqueezedAppend(token + " ", spaced);
    SqueezedSpace(token);
    SqueezedAppend(token, rest);
  }

  lemma {:induction false} TokensOf(t: string) returns (token: string, rest: string)
    requires t != "" && !IsBlank(t[0])
    ensures t == token + rest && |rest| < |t| && Proper(token) && Tokens(t) == [token] + Tokens(rest)
    ensures Spaced(Tokens(t)) == (token + " ") + Spaced(Tokens(rest))
  {
    token, rest := t[..TokenLength(t)], t[TokenLength(t)..];
    TokenIsProper(t);
    FirstToken(t);
    SpacedCons(token, Tokens(rest));
  }

  lemma {:induction false} SqueezedTokens(s: string)
    ensures Squeezed(Spaced(Tokens(s))) == Squeezed(s)
    decreases |s|
  {
    var t := SkipBlanks(s);
    SqueezedSkip(s);
    TokensSkip(s);
    if t != "" {
      var token, rest := TokensOf(t);
      SqueezedTokens(rest);
      SqueezedToken(token, Spaced(Tokens(rest)), rest);
    }
  }

  lemma {:induction false} SpacedIsClean(ts: seq<string>)
    requires ts != [] && forall i :: 0 <= i < |ts| ==> Proper(ts[i])
    ensures CleanText(Spaced(ts))
  {
    var init, t := ts[..|ts| - 1], ts[|ts| - 1];
    assert Proper(t);
    if init == [] {
      assert Spaced(ts) == t + " ";
    } else {
      SpacedIsClean(init);
      CleanMore(Spaced(init), t);
    }
  }

  lemma {:induction false} CleanMore(r: string, t: string)
    requires CleanText(r) && Proper(t)
    ensures CleanText(r + (t + " "))
  {
    var s := r + (t + " ");
    forall k | 0 <= k < |s| - 1 ensures s[k] != ' ' || s[k + 1] != ' ' {
      if |r| <= k < |s| - 1 {
        assert s[k] == t[k - |r|];
      } else if k == |r| - 1 {
        assert s[k + 1] == t[0];
      }
    }
  }

  lemma {:induction false} AnswerIsClean(text: string)
    requires Answer(text).Found?
    ensures CleanText(Answer(text).text) && Squeezed(Answer(text).text) == Squeezed(text)
  {
    forall i | 0 <= i < |Tokens(text)| ensures Proper(Tokens(text)[i]) {
      TokensAreProper(text, i);
    }
    SpacedIsClean(Tokens(text));
    SqueezedTokens(text);
  }

  /** Whatever the file and the buffer hold, a text found is clean. */
  lemma {:induction false} FoundIsClean(file: string, key: string, old_text: string)
    requires |old_text| == 480 && Scan(file, key, old_text).Found?
    ensures CleanText(Scan(file, key, old_text).text)
    decreases |file|
  {
    var text := Loaded(Take(Drop(file, WORD), TEXT), old_text);
    if Payload.CString(file[..WORD - 1]) == key {
      AnswerIsClean(Payload.CString(text));
    } else {
      FoundIsClean(Drop(Drop(file, WORD), TEXT), key, text);
    }
  }
}
