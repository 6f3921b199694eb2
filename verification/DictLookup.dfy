/** lookup: a linear search through the records for a padded word, and the white space of
    the definition found. */
module DictLookup {
  import opened DictConvert
  import Payload

  /** NullText: the record found has no text to return, and the program uses a null
      pointer. */
  datatype Outcome = Found(text: string) | NotFound | NullText

  const NUL := '\0'

  predicate IsBlank(c: char) { c == ' ' || c == '\t' || c == '\n' }

  function SkipBlanks(s: string): (r: string)
    ensures |r| <= |s| && (r != "" ==> !IsBlank(r[0]))
  {
    if s != "" && IsBlank(s[0]) then SkipBlanks(s[1..]) else s
  }

  function TokenLength(s: string): (n: nat)
    ensures n <= |s| && (s != "" && !IsBlank(s[0]) ==> n > 0)
  {
    if s == "" || IsBlank(s[0]) then 0 else 1 + TokenLength(s[1..])
  }

  /** The maximal runs of characters that are not blank. */
  function Tokens(s: string): seq<string>
    decreases |s|
  {
    var t := SkipBlanks(s);
    if t == "" then [] else [t[..TokenLength(t)]] + Tokens(t[TokenLength(t)..])
  }

  /** Each token with one space behind it. */
  function Spaced(ts: seq<string>): string {
    if ts == [] then "" else Spaced(ts[..|ts| - 1]) + (ts[|ts| - 1] + " ")
  }

  function Answer(text: string): Outcome {
    var ts := Tokens(text);
    if ts == [] then NullText else Found(Spaced(ts))
  }

  /** The word as it is compared: padded to the field, its last character cut off. */
  function Key(word: string): string {
    Payload.CString(Pad(word, WORD)[..WORD - 1])
  }

  function Take(s: string, n: nat): string {
    if |s| <= n then s else s[..n]
  }

  function Drop(s: string, n: nat): string {
    if |s| <= n then "" else s[n..]
  }

  /** The text field after a read: a short read leaves the rest of it as it was. */
  function Loaded(piece: string, old_text: string): string
    requires |piece| <= TEXT == |old_text|
  {
    (piece + old_text[|piece|..])[TEXT - 1 := NUL]
  }

  /** The search through what is left of the file. */
  function Scan(file: string, key: string, old_text: string): Outcome
    requires |old_text| == TEXT
    decreases |file|
  {
    if |file| <= WORD then NotFound
    else
      var text := Loaded(Take(Drop(file, WORD), TEXT), old_text);
      if Payload.CString(file[..WORD - 1]) == key then Answer(Payload.CString(text))
      else Scan(Drop(Drop(file, WORD), TEXT), key, text)
  }

  lemma {:induction false} SpacedSnoc(ts: seq<string>, t: string)
    ensures Spaced(ts + [t]) == Spaced(ts) + (t + " ")
  {
    assert (ts + [t])[..|ts + [t]| - 1] == ts;
  }

  lemma {:induction false} TokensSkip(s: string)
    ensures Tokens(SkipBlanks(s)) == Tokens(s)
  {
    var t := SkipBlanks(s);
    assert SkipBlanks(t) == t;
  }

  lemma {:induction false} FirstToken(s: string)
    requires s != "" && !IsBlank(s[0])
    ensures Tokens(s) == [s[..TokenLength(s)]] + Tokens(s[TokenLength(s)..])
  {
    assert SkipBlanks(s) == s;
  }

  lemma {:induction false} NextToken(ts: seq<string>, rest: string, all: seq<string>)
    requires rest != "" && !IsBlank(rest[0]) && all == ts + Tokens(rest)
    ensures var n := TokenLength(rest);
            && all == (ts + [rest[..n]]) + Tokens(SkipBlanks(rest[n..]))
            && Spaced(ts + [rest[..n]]) == Spaced(ts) + (rest[..n] + " ")
  {
    var n := TokenLength(rest);
    FirstToken(rest);
    TokensSkip(rest[n..]);
    SpacedSnoc(ts, rest[..n]);
    assert ts + ([rest[..n]] + Tokens(rest[n..])) == (ts + [rest[..n]]) + Tokens(rest[n..]);
  }

  /** Splits the text at its blanks and puts the tokens back together. */
  method Normalise(text: string) returns (r: Outcome)
    ensures r == Answer(text)
  {
    var final_str := "";
    ghost var ts: seq<string> := [];
    var rest := SkipBlanks(text);
    TokensSkip(text);
    var any := false;
    while rest != ""
      invariant Tokens(text) == ts + Tokens(rest)
      invariant final_str == Spaced(ts) && any == (ts != []) && (rest != "" ==> !IsBlank(rest[0]))
      decreases |rest|
    {
      var token := rest[..TokenLength(rest)];
      NextToken(ts, rest, Tokens(text));
      final_str := final_str + (token + " ");
      ts := ts + [token];
      any := true;
      rest := SkipBlanks(rest[TokenLength(rest)..]);
    }
    assert ts + Tokens("") == ts;
    r := if any then Found(final_str) else NullText;
  }

  method PadKey(word: string) returns (key: string)
    requires |word| < WORD && NUL !in word
    ensures key == Key(word)
  {
    var tmp_word := new char[WORD];
    for i := 0 to WORD
      invariant forall k :: 0 <= k < i ==> tmp_word[k] == ' '
    {
      tmp_word[i] := ' ';
    }
    for i := 0 to |word|
      invariant forall k :: 0 <= k < i ==> tmp_word[k] == word[k]
      invariant forall k :: i <= k < WORD ==> tmp_word[k] == ' '
    {
      tmp_word[i] := word[i];
    }
    tmp_word[WORD - 1] := NUL;
    assert tmp_word[..WORD - 1] == Pad(word, WORD)[..WORD - 1];
    key := Payload.CString(tmp_word[..WORD - 1]);
  }

  /** Reads up to TEXT characters over a text field, in place. */
  method LoadText(piece: string, text: array<char>)
    requires |piece| <= TEXT == text.Length
    modifies text
    ensures text[..] == Loaded(piece, old(text[..]))
  {
    for i := 0 to |piece|
      invariant forall k :: 0 <= k < i ==> text[k] == piece[k]
      invariant forall k :: i <= k < TEXT ==> text[k] == old(text[k])
    {
      text[i] := piece[i];
    }
    text[TEXT - 1] := NUL;
  }

  /** The search; text is the text field of the record read into. */
  method Lookup(word: string, file: string, text: array<char>) returns (r: Outcome)
    requires |word| < WORD && NUL !in word && text.Length == TEXT
    modifies text
    ensures r == Scan(file, Key(word), old(text[..]))
  {
    var key := PadKey(word);
    var rest := file;
    while rest != ""
      invariant Scan(rest, key, text[..]) == Scan(file, key, old(text[..]))
      decreases |rest|
    {
      if |rest| <= WORD {
        return NotFound;
      }
      ghost var before := text[..];
      LoadText(Take(Drop(rest, WORD), TEXT), text);
      if Payload.CString(rest[..WORD - 1]) == key {
        r := Normalise(Payload.CString(text[..]));
        return;
      }
      rest := Drop(Drop(rest, WORD), TEXT);
    }
    r := NotFound;
  }
}
