/** The gateway recovers the connection id of a login reply by scanning the raw JSON text. The reply is an
    object of four string members, encoded without white space in declaration order, each string spelled in
    any of the ways section 7 of RFC 8259 allows. */
module ConnIdScan {

  // ----- The scan

  const KEY := "\"connId\":\""

  predicate MatchAt(text: string, pat: string, i: nat) {
    i + |pat| <= |text| && text[i..i + |pat|] == pat
  }

  /** Position of the first match of `pat` at or after `from`, -1 if there is none. */
  function Index(text: string, pat: string, from: nat): (i: int)
    requires from <= |text|
    ensures i == -1 || (from <= i && MatchAt(text, pat, i))
    ensures forall j :: from <= j <= |text| && (i == -1 || j < i) ==> !MatchAt(text, pat, j)
    decreases |text| - from
  {
    if MatchAt(text, pat, from) then from
    else if from == |text| then -1
    else Index(text, pat, from + 1)
  }

  /** Position of the first occurrence of a character, -1 if there is none. */
  function IndexByte(text: string, c: char): (i: int)
    ensures i == -1 ==> c !in text
    ensures i != -1 ==> 0 <= i < |text| && text[i] == c && c !in text[..i]
  {
    if text == [] then -1
    else if text[0] == c then 0
    else
      var i := IndexByte(text[1..], c);
      assert i != -1 ==> text[..i + 1] == [text[0]] + text[1..][..i];
      if i == -1 then -1 else i + 1
  }

  /** The text from `start` up to the next quote. */
  function ValueAt(payload: string, start: nat): string
    requires start <= |payload|
  {
    var end := IndexByte(payload[start..], '\"');
    if end == -1 then "" else payload[start..start + end]
  }

  function ExtractSn(payload: string): string {
    var i := Index(payload, KEY, 0);
    if i == -1 then "" else ValueAt(payload, i + |KEY|)
  }

  // ----- JSON strings

  function HexValue(c: char): int {
    if '0' <= c <= '9' then c as int - '0' as int
    else if 'a' <= c <= 'f' then c as int - 'a' as int + 10
    else if 'A' <= c <= 'F' then c as int - 'A' as int + 10
    else -1
  }

  /** Four hexadecimal digits after a backslash and a `u`. */
  predicate IsU(p: string) {
    |p| == 6 && p[0] == '\\' && p[1] == 'u' && forall i :: 2 <= i < 6 ==> HexValue(p[i]) >= 0
  }

  function UValue(p: string): int
    requires IsU(p)
  {
    HexValue(p[2]) * 0x1000 + HexValue(p[3]) * 0x100 + HexValue(p[4]) * 0x10 + HexValue(p[5])
  }

  predicate RawOk(c: char) {
    c != '\"' && c != '\\' && c as int >= 0x20
  }

  /** What a two-character escape stands for. */
  function ShortEscape(x: char): int {
    match x
    case '\"' => 0x22
    case '\\' => 0x5C
    case '/' => 0x2F
    case 'b' => 0x08
    case 'f' => 0x0C
    case 'n' => 0x0A
    case 'r' => 0x0D
    case 't' => 0x09
    case _ => -1
  }

  /** `p` is one of the legal spellings of character `c` inside a JSON string. */
  predicate Spells(p: string, c: char) {
    || (p == [c] && RawOk(c))
    || (|p| == 2 && p[0] == '\\' && ShortEscape(p[1]) == c as int)
    || (IsU(p) && UValue(p) == c as int)
    || (|p| == 12 && IsU(p[..6]) && IsU(p[6..]) && 0xD800 <= UValue(p[..6]) < 0xDC00
      && 0xDC00 <= UValue(p[6..]) < 0xE000
        && c as int == 0x10000 + (UValue(p[..6]) - 0xD800) * 0x400 + (UValue(p[6..]) - 0xDC00))
  }

  /** `e` is the inside of a JSON string for `s`, as some conforming encoder may write it. */
  ghost predicate Encodes(e: string, s: string)
    decreases |s|
  {
    if s == [] then e == []
    else exists k :: 0 < k <= |e| && Spells(e[..k], s[0]) && Encodes(e[k..], s[1..])
  }

  /** The spelling that starts a text is delimited by the text itself. */
  function SpellingLength(e: string): int {
    if e == [] then 0
    else if e[0] != '\\' then 1
    else if |e| < 6 || e[1] != 'u' then 2
    else if IsU(e[..6]) && 0xD800 <= UValue(e[..6]) < 0xE000 then 12
    else 6
  }

  lemma SpellingDelimited(e: string, k: nat, c: char)
    requires 0 < k <= |e| && Spells(e[..k], c)
    ensures k == SpellingLength(e)
  {
    if k == 12 {
      assert e[..12][..6] == e[..6];
    }
    if k == 2 {
      assert e[..2][1] == e[1];
    }
  }

  lemma EncodingStep(e: string, s: string)
    requires Encodes(e, s) && s != []
    ensures var k := SpellingLength(e);
            0 < k <= |e| && Spells(e[..k], s[0]) && Encodes(e[k..], s[1..])
  {
    var k :| 0 < k <= |e| && Spells(e[..k], s[0]) && Encodes(e[k..], s[1..]);
    SpellingDelimited(e, k, s[0]);
  }

  lemma SpelledOnce(p: string, c: char, c': char)
    requires Spells(p, c) && Spells(p, c')
    ensures c == c'
  {
    assert c as int == c' as int;
  }

  /** Decoding is unambiguous: an encoded text is the encoding of one string only. */
  lemma {:induction false} EncodingInjective(e: string, s: string, s': string)
    requires Encodes(e, s) && Encodes(e, s')
    ensures s == s'
    decreases |s|
  {
    OnlyEmptyEncodesEmpty(e, s);
    OnlyEmptyEncodesEmpty(e, s');
    if s != [] {
      var k := SpellingLength(e);
      EncodingStep(e, s);
      EncodingStep(e, s');
      SpelledOnce(e[..k], s[0], s'[0]);
      EncodingInjective(e[k..], s[1..], s'[1..]);
      assert s == [s[0]] + s[1..] && s' == [s'[0]] + s'[1..];
    }
  }

  lemma OnlyEmptyEncodesEmpty(e: string, s: string)
    requires Encodes(e, s)
    ensures e == [] <==> s == []
  {
  }

  function HexDigit(n: nat): char
    requires n < 16
  {
    if n < 10 then '0' + n as char else 'a' + (n - 10) as char
  }

  /** Every string has an encoding. */
  lemma {:induction false} EncodingExists(s: string) returns (e: string)
    ensures Encodes(e, s)
  {
    if s == [] {
      return [];
    }
    var c := s[0];
    var rest := EncodingExists(s[1..]);
    var p: string;
    if RawOk(c) {
      p := [c];
    } else if c == '\"' || c == '\\' {
      p := ['\\', c];
    } else {
      var n := c as int;
      p := ['\\', 'u', '0', '0', HexDigit(n / 16), HexDigit(n % 16)];
      assert UValue(p) == n / 16 * 16 + n % 16;
    }
    e := p + rest;
    assert e[..|p|] == p && e[|p|..] == rest;
  }

  /** A quote inside an encoded string stands after a backslash. */
  predicate QuotesEscaped(e: string) {
    forall i :: 0 <= i < |e| && e[i] == '\"' ==> i > 0 && e[i - 1] == '\\'
  }

  lemma {:induction false} EncodingFacts(e: string, s: string)
    requires Encodes(e, s)
    ensures QuotesEscaped(e)
    ensures '\"' in e ==> '\"' in s
    ensures |e| >= |s|
    ensures |e| == |s| ==> forall c :: c in s ==> RawOk(c)
    decreases |s|
  {
    if s != [] {
      var k :| 0 < k <= |e| && Spells(e[..k], s[0]) && Encodes(e[k..], s[1..]);
      EncodingFacts(e[k..], s[1..]);
      QuotesOfSpelling(e[..k], s[0]);
      forall i | 0 <= i < |e| && e[i] == '\"'
        ensures i > 0 && e[i - 1] == '\\' && '\"' in s
      {
        if i < k {
          assert e[..k][i] == '\"';
          assert e[..k][i - 1] == e[i - 1];
        } else {
          assert e[k..][i - k] == '\"';
          assert e[k..][i - k - 1] == e[i - 1];
        }
      }
      assert forall c :: c in s <==> c == s[0] || c in s[1..];
    }
  }

  lemma QuotesOfSpelling(p: string, c: char)
    requires Spells(p, c)
    ensures forall i :: 0 <= i < |p| && p[i] == '\"' ==> i == 1 && p[0] == '\\' && c == '\"'
    ensures |p| == 1 ==> RawOk(c)
  {
    if |p| == 12 {
      assert forall i :: 0 <= i < 6 ==> p[..6][i] == p[i];
      assert forall i :: 6 <= i < 12 ==> p[6..][i - 6] == p[i];
    }
  }

  // ----- The encoded reply

  const OPEN := "{\"trace\":\""
  const CMD := "\",\"cmd\":\""
  const COMMA := "\","
  const TAIL := "\",\"message\":\""
  const CLOSE := "\"}"

  /** The part of the object before the `connId` key. */
  function Before(trace: string, cmd: string): string {
    OPEN + trace + CMD + cmd + COMMA
  }

  /** The part after the `connId` value. */
  function After(message: string): string {
    TAIL + message + CLOSE
  }

  /** The object, its four values already encoded. */
  function Object(trace: string, cmd: string, connId: string, message: string): string {
    Before(trace, cmd) + KEY + connId + After(message)
  }

  /** The last letters of the key, its closing quote and the colon stand around position `r`. */
  predicate KeyTailAt(text: string, r: nat) {
    2 <= r < |text| - 1 && text[r] == '\"' && text[r - 2] == 'I' && text[r - 1] == 'd' && text[r + 1] == ':'
  }

  /** The end of the key does not occur before the key itself. */
  ghost predicate KeepsKey(before: string) {
    forall r: nat :: 7 <= r < |before| + 7 ==> !KeyTailAt(before + KEY, r)
  }

  /** Every quote before the key is structural and has other neighbours, or is escaped. */
  lemma BeforeKeepsKey(trace: string, cmd: string)
    requires QuotesEscaped(trace) && QuotesEscaped(cmd)
    ensures KeepsKey(Before(trace, cmd))
  {
    forall r: nat | 7 <= r < |Before(trace, cmd)| + 7
      ensures !KeyTailAt(Before(trace, cmd) + KEY, r)
    {
      NoKeyTailBefore(trace, cmd, r);
    }
  }

  lemma NoKeyTailBefore(trace: string, cmd: string, r: nat)
    requires QuotesEscaped(trace) && QuotesEscaped(cmd)
    requires 7 <= r < |Before(trace, cmd)| + 7
    ensures !KeyTailAt(Before(trace, cmd) + KEY, r)
  {
    var text := Before(trace, cmd) + KEY;
    var a, b := |OPEN|, |OPEN| + |trace|;
    var c := b + |CMD|;
    var d := c + |cmd|;
    assert |Before(trace, cmd)| == d + 2;
    if a <= r < b && text[r] == '\"' {
      assert text[r] == trace[r - a];
      assert text[r - 1] == trace[r - a - 1];
    } else if c <= r < d && text[r] == '\"' {
      assert text[r] == cmd[r - c];
      assert text[r - 1] == cmd[r - c - 1];
    } else if r < a && 7 <= r {
      assert text[r] == OPEN[r] && text[r - 1] == OPEN[r - 1];
    } else if b <= r < c {
      assert text[r] == CMD[r - b];
      assert r + 1 < c ==> text[r + 1] == CMD[r + 1 - b];
      assert r > b ==> text[r - 1] == CMD[r - 1 - b];
      assert r > b + 1 ==> text[r - 2] == CMD[r - 2 - b];
    } else if d <= r < d + 2 {
      assert text[r] == COMMA[r - d] && text[d + 1] == COMMA[1];
    } else if d + 2 <= r < d + 9 {
      assert text[r] == KEY[r - d - 2];
      assert text[d + 1] == COMMA[1];
    }
  }

  /** The first match of the key is the real one. */
  lemma KeyFoundAtItsPlace(before: string, rest: string)
    requires KeepsKey(before)
    ensures Index(before + KEY + rest, KEY, 0) == |before|
  {
    var text := before + KEY + rest;
    var front := before + KEY;
    var at := |before|;
    assert text[at..at + |KEY|] == KEY;
    assert MatchAt(text, KEY, at);
    forall j: nat | j < at
      ensures !MatchAt(text, KEY, j)
    {
      if MatchAt(text, KEY, j) {
        var m := text[j..j + |KEY|];
        assert m[5] == 'I' && m[6] == 'd' && m[7] == '\"' && m[8] == ':';
        assert text[j + 5] == front[j + 5] && text[j + 6] == front[j + 6] && text[j + 7] == front[j + 7];
        assert text[j + 8] == front[j + 8];
        assert KeyTailAt(front, j + 7);
      }
    }
  }

  /** The part of a text before its first quote. */
  function UpToQuote(e: string): (r: string)
    ensures r <= e && '\"' !in r
    ensures |r| < |e| ==> e[|r|] == '\"'
  {
    if e == [] || e[0] == '\"' then [] else [e[0]] + UpToQuote(e[1..])
  }

  lemma {:induction false} FirstQuote(rest: string, r: nat)
    requires r < |rest| && rest[r] == '\"' && '\"' !in rest[..r]
    ensures IndexByte(rest, '\"') == r
  {
    if r > 0 {
      assert rest[0] == rest[..r][0];
      assert rest[1..][..r - 1] == rest[..r][1..];
      FirstQuote(rest[1..], r - 1);
    }
  }

  lemma ValueUpToQuote(payload: string, start: nat, r: nat)
    requires start + r < |payload|
    requires payload[start + r] == '\"' && '\"' !in payload[start..start + r]
    ensures ValueAt(payload, start) == payload[start..start + r]
  {
    var rest := payload[start..];
    assert rest[..r] == payload[start..start + r];
    FirstQuote(rest, r);
  }

  /** After a prefix `front`, the value is cut at its own first quote or at the quote that closes it. */
  lemma ValueAfterPrefix(front: string, value: string, back: string)
    requires back != [] && back[0] == '\"'
    ensures ValueAt(front + value + back, |front|) == UpToQuote(value)
  {
    var payload := front + value + back;
    var r := UpToQuote(value);
    assert payload[|front|..|front| + |r|] == r;
    assert payload[|front| + |r|] == '\"';
    ValueUpToQuote(payload, |front|, |r|);
  }

  lemma ExtractGiven(payload: string, at: nat)
    requires Index(payload, KEY, 0) == at
    ensures at + |KEY| <= |payload| && ExtractSn(payload) == ValueAt(payload, at + |KEY|)
  {
    FoundWithin(payload, KEY, at);
  }

  lemma FoundWithin(text: string, pat: string, at: nat)
    requires Index(text, pat, 0) == at
    ensures at + |pat| <= |text|
  {
    assert MatchAt(text, pat, at);
  }

  lemma ScanFrom(before: string, connId: string, after: string)
    requires after != [] && after[0] == '\"'
    requires Index(before + KEY + (connId + after), KEY, 0) == |before|
    ensures ExtractSn(before + KEY + connId + after) == UpToQuote(connId)
  {
    var front := before + KEY;
    assert front + connId + after == front + (connId + after);
    ExtractGiven(front + connId + after, |before|);
    ValueAfterPrefix(front, connId, after);
  }

  lemma AfterOpensWithQuote(message: string)
    ensures After(message) != [] && After(message)[0] == '\"'
  {
    assert After(message)[0] == TAIL[0];
  }

  /** The scan returns the raw spelling of the id, cut at its first quote. */
  lemma ScanReturnsRawValue(trace: string, cmd: string, connId: string, message: string)
    requires QuotesEscaped(trace) && QuotesEscaped(cmd)
    ensures ExtractSn(Object(trace, cmd, connId, message)) == UpToQuote(connId)
  {
    BeforeKeepsKey(trace, cmd);
    AfterOpensWithQuote(message);
    KeyFoundAtItsPlace(Before(trace, cmd), connId + After(message));
    ScanFrom(Before(trace, cmd), connId, After(message));
  }

  lemma UnchangedHasNoQuote(s: string)
    requires Encodes(s, s)
    ensures '\"' !in s
  {
    EncodingFacts(s, s);
    assert '\"' in s ==> RawOk('\"');
  }

  /** Cutting an encoded id at its first quote gives the id exactly when the encoding changed nothing. */
  lemma CutRecoversIff(e: string, s: string)
    requires Encodes(e, s)
    ensures UpToQuote(e) == s <==> e == s
  {
    var r := UpToQuote(e);
    if e == s {
      UnchangedHasNoQuote(s);
    } else {
      EncodingFacts(e, s);
    }
    assert '\"' !in e ==> r == e by {
      if |r| < |e| {
        assert e[|r|] in e;
      }
    }
  }

  lemma EncodedQuotes(e: string, s: string)
    requires Encodes(e, s)
    ensures QuotesEscaped(e)
  {
    EncodingFacts(e, s);
  }

  lemma ScanOfEncoded(trace: string, cmd: string, eTrace: string, eCmd: string, eConnId: string, eMessage: string)
    requires Encodes(eTrace, trace) && Encodes(eCmd, cmd)
    ensures ExtractSn(Object(eTrace, eCmd, eConnId, eMessage)) == UpToQuote(eConnId)
  {
    EncodedQuotes(eTrace, trace);
    EncodedQuotes(eCmd, cmd);
    ScanReturnsRawValue(eTrace, eCmd, eConnId, eMessage);
  }

  /** The scan undoes the encoder exactly when the encoder spelled the id unchanged, for every trace, command
      and message and every conforming way of spelling them. */
  lemma ScanUndoesEncoderIff(trace: string, cmd: string, connId: string, message: string,
                             eTrace: string, eCmd: string, eConnId: string, eMessage: string)
    requires Encodes(eTrace, trace) && Encodes(eCmd, cmd) && Encodes(eConnId, connId) && Encodes(eMessage, message)
    ensures ExtractSn(Object(eTrace, eCmd, eConnId, eMessage)) == connId <==> eConnId == connId
  {
    ScanOfEncoded(trace, cmd, eTrace, eCmd, eConnId, eMessage);
    CutRecoversIff(eConnId, connId);
  }

  /** An id can be spelled unchanged exactly when none of its characters needs an escape. */
  lemma {:induction false} UnchangedIffRaw(s: string)
    ensures Encodes(s, s) <==> forall c :: c in s ==> RawOk(c)
  {
    if s != [] {
      if Encodes(s, s) {
        EncodingFacts(s, s);
      }
      UnchangedIffRaw(s[1..]);
      if forall c :: c in s ==> RawOk(c) {
        assert forall c :: c in s[1..] ==> c in s;
        assert Spells(s[..1], s[0]) && Encodes(s[1..], s[1..]);
      }
    }
  }

  /** A payload without the key, such as the empty reply of a fire-and-forget push, yields no id. */
  lemma NoKeyNoId(payload: string)
    requires forall i: nat :: !MatchAt(payload, KEY, i)
    ensures ExtractSn(payload) == ""
  {
  }

  // ----- By example

  /** Section 7 of RFC 8259 in examples: the two characters that need an escape, a control character, a letter. */
  lemma Escapes()
    ensures Spells("\\\"", '\"') && Spells("\\\\", '\\') && Spells("\\/", '/') && Spells("\\n", 10 as char)
    ensures Spells("\\t", 9 as char) && Spells("\\r", 13 as char) && Spells("\\b", 8 as char)
              && Spells("\\f", 12 as char)
    ensures Spells("\\u0041", 'A') && Spells("\\u00e9", 0xe9 as char) && Spells("A", 'A')
    ensures !RawOk('\"') && !RawOk('\\') && !RawOk(10 as char) && RawOk(' ') && RawOk('A') && RawOk('/')
  {
    assert HexValue('0') == 0 && HexValue('4') == 4 && HexValue('1') == 1 && HexValue('9') == 9 && HexValue('e') == 14;
    assert IsU("\\u0041") && UValue("\\u0041") == 0x41;
    assert IsU("\\u00e9") && UValue("\\u00e9") == 0xe9;
  }

  /** The object, field by field. */
  lemma ObjectIs(trace: string, cmd: string, connId: string, message: string)
    ensures Object(trace, cmd, connId, message) ==
            "{\"trace\":\"" + trace + "\",\"cmd\":\"" + cmd + "\",\"connId\":\"" + connId +
            "\",\"message\":\"" + message + "\"}"
  {
    assert "\",\"connId\":\"" == COMMA + KEY;
  }
}
