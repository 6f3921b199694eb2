/** The text of a task message, printed by the producer and the broker and scanned by
    the broker and the workers, inside 80-byte buffers. */
module Payload {
  import opened Options

  /** INT_MAX + 1: task ids are C ints. */
  const INT_LIMIT := 0x8000_0000

  const BUFFER := 80

  function Digit(d: int): char
    requires 0 <= d < 10
  {
    "0123456789"[d]
  }

  predicate IsDigit(c: char) {
    '0' <= c <= '9'
  }

  predicate IsSpace(c: char) {
    c == ' ' || 9 <= c as int <= 13
  }

  function DigitValue(c: char): int {
    c as int - '0' as int
  }

  /** What %d prints. */
  function Decimal(n: int): string
    decreases n < 0, if n < 0 then -n else n
  {
    if n < 0 then "-" + Decimal(-n)
    else if n < 10 then [Digit(n)]
    else Decimal(n / 10) + [Digit(n % 10)]
  }

  function Text(id: int): string {
    "TASK " + Decimal(id) + " : This is message " + Decimal(id)
  }

  function DigitRun(s: string): (n: nat)
    ensures n <= |s|
  {
    if s == [] || !IsDigit(s[0]) then 0 else 1 + DigitRun(s[1..])
  }

  function Value(digits: string): int {
    if digits == [] then 0 else 10 * Value(digits[..|digits| - 1]) + DigitValue(digits[|digits| - 1])
  }

  function SkipSpace(s: string): string {
    if s != [] && IsSpace(s[0]) then SkipSpace(s[1..]) else s
  }

  /** What %d scans: optional space, an optional sign and at least one digit. */
  function ScanInt(s: string): Option<int> {
    var t := SkipSpace(s);
    var negative := t != [] && t[0] == '-';
    var u := if t != [] && (t[0] == '-' || t[0] == '+') then t[1..] else t;
    var n := DigitRun(u);
    if n == 0 then None else Some(if negative then -Value(u[..n]) else Value(u[..n]))
  }

  /** get_task_id. */
  function TaskId(s: string): Option<int> {
    if |s| >= 4 && s[..4] == "TASK" then ScanInt(s[4..]) else None
  }

  /** The C string at the start of a byte sequence. */
  function CString(bytes: string): string {
    if bytes == [] || bytes[0] == '\0' then [] else [bytes[0]] + CString(bytes[1..])
  }

  /** Copying a message into an 80-byte buffer, cut to leave room for the final NUL. */
  function Received(message: string): string {
    CString(if |message| >= BUFFER then message[..BUFFER - 1] else message)
  }

  /** The message a worker or the broker gets out of a text sent with its NUL and
      whatever bytes follow it. */
  function Sent(text: string, rest: string): string {
    text + ['\0'] + rest
  }

  lemma {:induction false} DigitRunOf(ds: string, rest: string)
    requires forall i :: 0 <= i < |ds| ==> IsDigit(ds[i])
    requires rest == [] || !IsDigit(rest[0])
    ensures DigitRun(ds + rest) == |ds|
  {
    if ds == [] {
      assert ds + rest == rest;
    } else {
      assert (ds + rest)[1..] == ds[1..] + rest;
      DigitRunOf(ds[1..], rest);
    }
  }

  /** Printing a natural number and reading its digits back. */
  lemma {:induction false} DecimalValue(n: nat)
    ensures |Decimal(n)| >= 1 && Value(Decimal(n)) == n
    ensures forall i :: 0 <= i < |Decimal(n)| ==> IsDigit(Decimal(n)[i])
    decreases n
  {
    if n < 10 {
      assert Decimal(n) == [Digit(n)];
      assert [Digit(n)][..0] == [];
    } else {
      DecimalValue(n / 10);
      var d := Decimal(n);
      assert d[..|d| - 1] == Decimal(n / 10);
    }
  }

  /** n < 10^k prints in at most k digits. */
  lemma {:induction false} DecimalLength(n: nat, k: nat, bound: nat)
    requires k >= 1 && n < bound && bound == Ten(k)
    ensures |Decimal(n)| <= k
    decreases k
  {
    if n >= 10 {
      assert k > 1;
      DecimalLength(n / 10, k - 1, Ten(k - 1));
    }
  }

  predicate AllDigits(ds: string) { forall i :: 0 <= i < |ds| ==> '0' <= ds[i] <= '9' }

  predicate AllSpace(w: string) {
    forall i :: 0 <= i < |w| ==> w[i] in {' ', '\t', '\n', '\r', 11 as char, 12 as char}
  }

  lemma {:induction false} SkipsSpace(w: string, rest: string)
    requires AllSpace(w) && (rest == "" || !IsSpace(rest[0]))
    ensures SkipSpace(w + rest) == rest
  {
    if w == "" {
      assert w + rest == rest;
    } else {
      assert (w + rest)[0] == w[0] && (w + rest)[1..] == w[1..] + rest;
      SkipsSpace(w[1..], rest);
    }
  }

  lemma {:induction false} ScanBehindSpace(w: string, s: string)
    requires AllSpace(w) && (s == "" || !IsSpace(s[0]))
    ensures ScanInt(w + s) == ScanInt(s)
  {
    SkipsSpace(w, s);
    SkipsSpace("", s);
    assert "" + s == s;
  }

  /** Every way a number can be written for %d, and every way it can be missing: after white
      space a sign or none, and then digits or none. */
  lemma {:induction false} ScanForms(w: string, sign: string, ds: string, rest: string)
    requires AllSpace(w) && sign in {"", "+", "-"} && AllDigits(ds)
    requires rest == "" || !('0' <= rest[0] <= '9')
    requires sign == ds == "" && rest != "" ==> !IsSpace(rest[0]) && rest[0] != '+' && rest[0] != '-'
    ensures ScanInt(w + (sign + (ds + rest)))
            == if ds == "" then None else if sign == "-" then Some(-Value(ds)) else Some(Value(ds))
  {
    var s := sign + (ds + rest);
    ScanBehindSpace(w, s);
    assert SkipSpace(s) == s;
    DigitRunOf(ds, rest);
    assert (ds + rest)[..|ds|] == ds;
    if sign == "" {
      assert s == ds + rest;
    } else {
      assert s[0] == sign[0] && s[1..] == ds + rest;
    }
  }

  /** Printing and scanning any number, negative ones included. */
  lemma {:induction false} ScanOfDecimal(n: int, rest: string)
    requires rest == "" || !('0' <= rest[0] <= '9')
    ensures ScanInt(Decimal(n) + rest) == Some(n)
  {
    var ds := Decimal(if n < 0 then -n else n);
    DecimalValue(if n < 0 then -n else n);
    ScanForms("", if n < 0 then "-" else "", ds, rest);
    assert Decimal(n) + rest == "" + ((if n < 0 then "-" else "") + (ds + rest));
  }

  /** A task text is the word TASK and a number behind it; nothing else holds an id. */
  lemma {:induction false} TaskIdForms(s: string)
    ensures TaskId("TASK" + s) == ScanInt(s)
    ensures |s| < 4 || s[..4] != "TASK" ==> TaskId(s) == None
  {
    assert ("TASK" + s)[..4] == "TASK" && ("TASK" + s)[4..] == s;
  }

  /** What the producer prints for a task. */
  lemma {:induction false} TextIs(id: nat) returns (ds: string)
    ensures Text(id) == "TASK " + ds + " : This is message " + ds && AllDigits(ds) && ScanInt(ds) == Some(id)
  {
    ds := Decimal(id);
    DecimalValue(id);
    ScanOfDecimal(id, "");
    assert ds + "" == ds;
  }

  lemma {:induction false} ValueBound(ds: string)
    requires AllDigits(ds)
    ensures 0 <= Value(ds) < Ten(|ds|)
  {
    if ds != "" {
      ValueBound(ds[..|ds| - 1]);
    }
  }

  lemma {:induction false} TenGrows(j: nat, k: nat)
    requires j <= k
    ensures 1 <= Ten(j) <= Ten(k)
  {
    if j < k {
      TenGrows(j, k - 1);
    } else if j > 0 {
      TenGrows(j - 1, k - 1);
    }
  }

  function Ten(k: nat): nat {
    if k == 0 then 1 else 10 * Ten(k - 1)
  }

  lemma {:induction false} CStringOf(text: string, rest: string)
    requires '\0' !in text && (rest == [] || rest[0] == '\0')
    ensures CString(text + rest) == text
  {
    if text == [] {
      assert text + rest == rest;
    } else {
      assert (text + rest)[1..] == text[1..] + rest;
      CStringOf(text[1..], rest);
    }
  }

  /** The text of a task fits its buffer and holds no NUL. */
  lemma TextFits(id: nat)
    requires id < 0x8000_0000
    ensures |Text(id)| < 80 && '\0' !in Text(id)
  {
    assert Ten(10) == 10_000_000_000 by {
      assert Ten(2) == 100 && Ten(4) == 10_000 && Ten(6) == 1_000_000 && Ten(8) == 100_000_000;
    }
    DecimalLength(id, 10, Ten(10));
    DecimalValue(id);
    var d := Decimal(id);
    assert forall i :: 0 <= i < |d| ==> d[i] != '\0';
    assert '\0' !in "TASK " && '\0' !in " : This is message ";
  }

  /** The payload round trip: scanning the text of any task id gives the id back. */
  lemma TaskIdOfText(id: nat)
    ensures TaskId(Text(id)) == Some(id)
  {
    DecimalValue(id);
    var d := Decimal(id);
    var tail := " : This is message " + d;
    assert Text(id)[..4] == "TASK";
    assert Text(id)[4..] == " " + (d + tail);
    assert (" " + (d + tail))[1..] == d + tail;
    assert SkipSpace(" " + (d + tail)) == d + tail;
    DigitRunOf(d, tail);
    assert (d + tail)[..|d|] == d;
  }

  /** Through the wire: a task text sent with its NUL, whatever bytes follow, is
      received as the same text and parsed to the same id. */
  lemma TaskRoundTrip(id: nat, rest: string)
    requires id < 0x8000_0000
    ensures Received(Sent(Text(id), rest)) == Text(id)
    ensures TaskId(Received(Sent(Text(id), rest))) == Some(id)
  {
    TextFits(id);
    TaskIdOfText(id);
    var m := Sent(Text(id), rest);
    if |m| >= BUFFER {
      assert m[..BUFFER - 1] == Text(id) + (['\0'] + rest)[..BUFFER - 1 - |Text(id)|];
      CStringOf(Text(id), (['\0'] + rest)[..BUFFER - 1 - |Text(id)|]);
    } else {
      assert m == Text(id) + (['\0'] + rest);
      CStringOf(Text(id), ['\0'] + rest);
    }
  }
}
