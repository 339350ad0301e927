/**
 * `escape_for_json` of responses-api-server/index.py: a chain of seven
 * `str.replace` calls that escapes text for embedding between JSON
 * quotes. Backslash is replaced first, so no later replacement sees a
 * backslash it introduced and the chain acts as one per-character map.
 * The decoder below follows the string grammar of section 7 of RFC 8259.
 */
module JsonEscape {
  import opened Common

  const Backspace: char := 8 as char
  const FormFeed: char := 12 as char

  /** The argument: a Python `str`, or any other value, which `str()` renders. */
  datatype Arg = Text(s: string) | NonText(rendered: string)

  /** Python `s.replace(c, rep)` for a one-character pattern. */
  function ReplaceChar(s: string, c: char, rep: string): (r: string)
    ensures c !in s ==> r == s
  {
    if s == [] then []
    else (if s[0] == c then rep else [s[0]]) + ReplaceChar(s[1..], c, rep)
  }

  lemma {:induction false} ReplaceCharAppend(a: string, b: string, c: char, rep: string)
    ensures ReplaceChar(a + b, c, rep) == ReplaceChar(a, c, rep) + ReplaceChar(b, c, rep)
  {
    if a == [] {
      assert a + b == b;
    } else {
      assert (a + b)[1..] == a[1..] + b;
      ReplaceCharAppend(a[1..], b, c, rep);
    }
  }

  lemma ReplaceCharSingle(x: char, c: char, rep: string)
    ensures ReplaceChar([x], c, rep) == if x == c then rep else [x]
  {
    assert [x][1..] == [];
  }

  /** The seven replacements in source order. */
  function Chain(s: string): string {
    var e1 := ReplaceChar(s, '\\', "\\\\");
    var e2 := ReplaceChar(e1, '"', "\\\"");
    var e3 := ReplaceChar(e2, '\n', "\\n");
    var e4 := ReplaceChar(e3, '\r', "\\r");
    var e5 := ReplaceChar(e4, '\t', "\\t");
    var e6 := ReplaceChar(e5, Backspace, "\\b");
    ReplaceChar(e6, FormFeed, "\\f")
  }

  lemma ChainAppend(a: string, b: string)
    ensures Chain(a + b) == Chain(a) + Chain(b)
  {
    var a1, b1 := ReplaceChar(a, '\\', "\\\\"), ReplaceChar(b, '\\', "\\\\");
    ReplaceCharAppend(a, b, '\\', "\\\\");
    var a2, b2 := ReplaceChar(a1, '"', "\\\""), ReplaceChar(b1, '"', "\\\"");
    ReplaceCharAppend(a1, b1, '"', "\\\"");
    var a3, b3 := ReplaceChar(a2, '\n', "\\n"), ReplaceChar(b2, '\n', "\\n");
    ReplaceCharAppend(a2, b2, '\n', "\\n");
    var a4, b4 := ReplaceChar(a3, '\r', "\\r"), ReplaceChar(b3, '\r', "\\r");
    ReplaceCharAppend(a3, b3, '\r', "\\r");
    var a5, b5 := ReplaceChar(a4, '\t', "\\t"), ReplaceChar(b4, '\t', "\\t");
    ReplaceCharAppend(a4, b4, '\t', "\\t");
    var a6, b6 := ReplaceChar(a5, Backspace, "\\b"), ReplaceChar(b5, Backspace, "\\b");
    ReplaceCharAppend(a5, b5, Backspace, "\\b");
    ReplaceCharAppend(a6, b6, FormFeed, "\\f");
  }

  /** The seven characters the source escapes. */
  predicate IsEscaped(c: char) {
    c == '\\' || c == '"' || c == '\n' || c == '\r' || c == '\t' || c == Backspace || c == FormFeed
  }

  /** The two-character escape of one of the seven, the character itself otherwise. */
  function EscapeChar(c: char): (e: string)
    ensures IsEscaped(c) <==> |e| == 2
    ensures IsEscaped(c) ==> e[0] == '\\'
    ensures !IsEscaped(c) ==> e == [c]
  {
    if c == '\\' then "\\\\"
    else if c == '"' then "\\\""
    else if c == '\n' then "\\n"
    else if c == '\r' then "\\r"
    else if c == '\t' then "\\t"
    else if c == Backspace then "\\b"
    else if c == FormFeed then "\\f"
    else [c]
  }

  lemma ReplaceCharPair(x: char, y: char, c: char, rep: string)
    requires x != c && y != c
    ensures ReplaceChar([x, y], c, rep) == [x, y]
  {
  }

  /** The chain on a single character is that character's escape; no escape contains a later pattern. */
  lemma ChainOfChar(c: char)
    ensures Chain([c]) == EscapeChar(c)
  {
    if c == '\\' {
      ReplaceCharSingle(c, '\\', "\\\\");
      var e := EscapeChar(c);
      assert e == [e[0], e[1]];
      ReplaceCharPair(e[0], e[1], '"', "\\\"");
      ReplaceCharPair(e[0], e[1], '\n', "\\n");
      ReplaceCharPair(e[0], e[1], '\r', "\\r");
      ReplaceCharPair(e[0], e[1], '\t', "\\t");
      ReplaceCharPair(e[0], e[1], Backspace, "\\b");
      ReplaceCharPair(e[0], e[1], FormFeed, "\\f");
    } else if c == '"' {
      ReplaceCharSingle(c, '\\', "\\\\");
      ReplaceCharSingle(c, '"', "\\\"");
      var e := EscapeChar(c);
      assert e == [e[0], e[1]];
      ReplaceCharPair(e[0], e[1], '\n', "\\n");
      ReplaceCharPair(e[0], e[1], '\r', "\\r");
      ReplaceCharPair(e[0], e[1], '\t', "\\t");
      ReplaceCharPair(e[0], e[1], Backspace, "\\b");
      ReplaceCharPair(e[0], e[1], FormFeed, "\\f");
    } else if c == '\n' {
      ReplaceCharSingle(c, '\\', "\\\\");
      ReplaceCharSingle(c, '"', "\\\"");
      ReplaceCharSingle(c, '\n', "\\n");
      var e := EscapeChar(c);
      assert e == [e[0], e[1]];
      ReplaceCharPair(e[0], e[1], '\r', "\\r");
      ReplaceCharPair(e[0], e[1], '\t', "\\t");
      ReplaceCharPair(e[0], e[1], Backspace, "\\b");
      ReplaceCharPair(e[0], e[1], FormFeed, "\\f");
    } else if c == '\r' {
      ReplaceCharSingle(c, '\\', "\\\\");
      ReplaceCharSingle(c, '"', "\\\"");
      ReplaceCharSingle(c, '\n', "\\n");
      ReplaceCharSingle(c, '\r', "\\r");
      var e := EscapeChar(c);
      assert e == [e[0], e[1]];
      ReplaceCharPair(e[0], e[1], '\t', "\\t");
      ReplaceCharPair(e[0], e[1], Backspace, "\\b");
      ReplaceCharPair(e[0], e[1], FormFeed, "\\f");
    } else if c == '\t' {
      ReplaceCharSingle(c, '\\', "\\\\");
      ReplaceCharSingle(c, '"', "\\\"");
      ReplaceCharSingle(c, '\n', "\\n");
      ReplaceCharSingle(c, '\r', "\\r");
      ReplaceCharSingle(c, '\t', "\\t");
      var e := EscapeChar(c);
      assert e == [e[0], e[1]];
      ReplaceCharPair(e[0], e[1], Backspace, "\\b");
      ReplaceCharPair(e[0], e[1], FormFeed, "\\f");
    } else if c == Backspace {
      ReplaceCharSingle(c, '\\', "\\\\");
      ReplaceCharSingle(c, '"', "\\\"");
      ReplaceCharSingle(c, '\n', "\\n");
      ReplaceCharSingle(c, '\r', "\\r");
      ReplaceCharSingle(c, '\t', "\\t");
      ReplaceCharSingle(c, Backspace, "\\b");
      var e := EscapeChar(c);
      assert e == [e[0], e[1]];
      ReplaceCharPair(e[0], e[1], FormFeed, "\\f");
    } else if c == FormFeed {
      ReplaceCharSingle(c, '\\', "\\\\");
      ReplaceCharSingle(c, '"', "\\\"");
      ReplaceCharSingle(c, '\n', "\\n");
      ReplaceCharSingle(c, '\r', "\\r");
      ReplaceCharSingle(c, '\t', "\\t");
      ReplaceCharSingle(c, Backspace, "\\b");
      ReplaceCharSingle(c, FormFeed, "\\f");
      var e := EscapeChar(c);
      assert e == [e[0], e[1]];
    } else {
      ReplaceCharSingle(c, '\\', "\\\\");
      ReplaceCharSingle(c, '"', "\\\"");
      ReplaceCharSingle(c, '\n', "\\n");
      ReplaceCharSingle(c, '\r', "\\r");
      ReplaceCharSingle(c, '\t', "\\t");
      ReplaceCharSingle(c, Backspace, "\\b");
      ReplaceCharSingle(c, FormFeed, "\\f");
    }
  }

  /** The per-character map, applied left to right. */
  function EscapeMap(s: string): string {
    if s == [] then [] else EscapeChar(s[0]) + EscapeMap(s[1..])
  }

  /** Backslash goes first, so the replace chain equals the per-character map. */
  lemma {:induction false} ChainIsPerCharacterMap(s: string)
    ensures Chain(s) == EscapeMap(s)
  {
    if s != [] {
      assert s == [s[0]] + s[1..];
      ChainAppend([s[0]], s[1..]);
      ChainOfChar(s[0]);
      ChainIsPerCharacterMap(s[1..]);
    }
  }

  /** `escape_for_json(text)`. */
  function EscapeForJson(text: Arg): (r: string)
    ensures text.NonText? ==> r == text.rendered
    ensures text.Text? ==> r == EscapeMap(text.s)
  {
    match text
    case NonText(rendered) => rendered
    case Text(s) => ChainIsPerCharacterMap(s); Chain(s)
  }

  function CountEscaped(s: string): nat {
    if s == [] then 0 else (if IsEscaped(s[0]) then 1 else 0) + CountEscaped(s[1..])
  }

  /** Each of the seven characters costs exactly one extra character. */
  lemma {:induction false} EscapeLength(s: string)
    ensures |EscapeMap(s)| == |s| + CountEscaped(s)
  {
    if s != [] {
      EscapeLength(s[1..]);
    }
  }

  /** Undoes the seven two-character escapes; None on a backslash that does not start one. */
  function Unescape(e: string): (r: Option<string>)
    decreases |e|
  {
    if e == [] then Some([])
    else if e[0] != '\\' then
      match Unescape(e[1..]) case None => None case Some(rest) => Some([e[0]] + rest)
    else if |e| < 2 then None
    else
      var c := match e[1]
        case '\\' => Some('\\') case '"' => Some('"') case 'n' => Some('\n') case 'r' => Some('\r')
        case 't' => Some('\t') case 'b' => Some(Backspace) case 'f' => Some(FormFeed) case _ => None;
      match c
      case None => None
      case Some(ch) =>
        match Unescape(e[2..]) case None => None case Some(rest) => Some([ch] + rest)
  }

  lemma UnescapeStep(c: char, rest: string)
    ensures Unescape(EscapeChar(c) + rest) ==
      match Unescape(rest) case None => None case Some(t) => Some([c] + t)
  {
    var e := EscapeChar(c) + rest;
    if IsEscaped(c) {
      assert e[0] == '\\' && e[2..] == rest;
    } else {
      assert e[0] == c && e[1..] == rest;
    }
  }

  /** The matching unescape recovers any input. */
  lemma {:induction false} UnescapeRoundTrip(s: string)
    ensures Unescape(EscapeMap(s)) == Some(s)
  {
    if s != [] {
      UnescapeRoundTrip(s[1..]);
      UnescapeStep(s[0], EscapeMap(s[1..]));
      assert [s[0]] + s[1..] == s;
    }
  }

  // ---------------------------------------------------------------------------
  // Section 7 of RFC 8259
  // ---------------------------------------------------------------------------

  /** May appear unescaped inside a JSON string. */
  predicate IsUnescaped(c: char) {
    c as int >= 0x20 && c != '"' && c != '\\'
  }

  function HexValue(c: char): (r: Option<int>)
    ensures r.Some? ==> 0 <= r.value < 16
  {
    if '0' <= c <= '9' then Some(c as int - '0' as int)
    else if 'a' <= c <= 'f' then Some(c as int - 'a' as int + 10)
    else if 'A' <= c <= 'F' then Some(c as int - 'A' as int + 10)
    else None
  }

  function HexDigit(n: int): (c: char)
    requires 0 <= n < 16
    ensures HexValue(c) == Some(n)
  {
    if n < 10 then ('0' as int + n) as char else ('a' as int + n - 10) as char
  }

  /** The code point of four hex digits, None when one is not a hex digit. */
  function Hex4(h: string): (r: Option<int>)
    requires |h| == 4
    ensures r.Some? ==> 0 <= r.value < 0x10000
  {
    match (HexValue(h[0]), HexValue(h[1]), HexValue(h[2]), HexValue(h[3]))
    case (Some(a), Some(b), Some(c), Some(d)) => Some(((a * 16 + b) * 16 + c) * 16 + d)
    case _ => None
  }

  /**
   * Decodes the body of a JSON string: unescaped characters, the
   * two-character escapes (including `\/`), and `\uXXXX`. None for a raw
   * control character, a quote, or a bad escape. A `\u` escape naming a
   * surrogate is also rejected: pairs are not combined.
   */
  function Decode(e: string): (r: Option<string>)
    decreases |e|
  {
    if e == [] then Some([])
    else if e[0] != '\\' then
      if !IsUnescaped(e[0]) then None
      else match Decode(e[1..]) case None => None case Some(rest) => Some([e[0]] + rest)
    else if |e| < 2 then None
    else if e[1] == 'u' then
      if |e| < 6 then None
      else match Hex4(e[2..6])
        case None => None
        case Some(v) =>
          if 0xD800 <= v < 0xE000 then None
          else match Decode(e[6..]) case None => None case Some(rest) => Some([v as char] + rest)
    else
      var c := match e[1]
        case '\\' => Some('\\') case '"' => Some('"') case '/' => Some('/') case 'n' => Some('\n')
        case 'r' => Some('\r') case 't' => Some('\t') case 'b' => Some(Backspace) case 'f' => Some(FormFeed)
        case _ => None;
      match c
      case None => None
      case Some(ch) => match Decode(e[2..]) case None => None case Some(rest) => Some([ch] + rest)
  }

  /** A control character outside the seven. */
  predicate IsBareControl(c: char) {
    c as int < 0x20 && !IsEscaped(c)
  }

  /** The as-written escaper leaves U+0001 raw, and a JSON decoder refuses the result. */
  lemma ControlCharacterPassesRaw()
    ensures EscapeForJson(Text([1 as char])) == [1 as char]
    ensures Decode(EscapeForJson(Text([1 as char]))).None?
  {
    assert EscapeMap([1 as char]) == EscapeChar(1 as char) + EscapeMap([]);
  }

  /** Every text containing a bare control character escapes to something that is not a JSON string. */
  lemma {:induction false} BareControlBreaksJson(s: string, i: int)
    requires 0 <= i < |s| && IsBareControl(s[i])
    ensures Decode(EscapeMap(s)).None?
  {
    DecodeOfEscapeMap(s);
  }

  predicate NoBareControl(s: string) {
    forall i :: 0 <= i < |s| ==> !IsBareControl(s[i])
  }

  /** The as-written escaper produces a valid JSON string body exactly when the text has no bare control character. */
  lemma {:induction false} DecodeOfEscapeMap(s: string)
    ensures NoBareControl(s) ==> Decode(EscapeMap(s)) == Some(s)
    ensures !NoBareControl(s) ==> Decode(EscapeMap(s)).None?
  {
    if s != [] {
      DecodeOfEscapeMap(s[1..]);
      DecodeStep(s[0], EscapeMap(s[1..]));
      assert [s[0]] + s[1..] == s;
      if !NoBareControl(s) && !IsBareControl(s[0]) {
        var i :| 0 <= i < |s| && IsBareControl(s[i]);
        assert IsBareControl(s[1..][i - 1]);
      }
      if NoBareControl(s) {
        assert !IsBareControl(s[0]);
        assert forall i :: 0 <= i < |s[1..]| ==> s[1..][i] == s[i + 1];
      }
    }
  }

  lemma DecodeStep(c: char, rest: string)
    ensures !IsBareControl(c) ==>
      Decode(EscapeChar(c) + rest) == match Decode(rest) case None => None case Some(t) => Some([c] + t)
    ensures IsBareControl(c) ==> Decode(EscapeChar(c) + rest).None?
  {
    var e := EscapeChar(c) + rest;
    if IsEscaped(c) {
      assert e[0] == '\\' && e[1] != 'u' && e[2..] == rest;
    } else {
      assert e[0] == c && e[1..] == rest;
    }
  }

  // ---------------------------------------------------------------------------
  // Corrected escaper
  // ---------------------------------------------------------------------------

  /** The seven escapes as in the source, and `\u00XX` for every other control character. */
  function StrictEscapeChar(c: char): (e: string)
    ensures IsBareControl(c) ==> |e| == 6
    ensures !IsBareControl(c) ==> e == EscapeChar(c)
  {
    if IsBareControl(c) then
      var v := c as int;
      ['\\', 'u', '0', '0', HexDigit(v / 16), HexDigit(v % 16)]
    else EscapeChar(c)
  }

  function StrictEscape(s: string): string {
    if s == [] then [] else StrictEscapeChar(s[0]) + StrictEscape(s[1..])
  }

  lemma StrictDecodeStep(c: char, rest: string)
    ensures Decode(StrictEscapeChar(c) + rest) ==
      match Decode(rest) case None => None case Some(t) => Some([c] + t)
  {
    if IsBareControl(c) {
      var v := c as int;
      var e := StrictEscapeChar(c) + rest;
      assert e[0] == '\\' && e[1] == 'u' && e[6..] == rest;
      assert e[2..6] == ['0', '0', HexDigit(v / 16), HexDigit(v % 16)];
      assert Hex4(e[2..6]) == Some(v);
      assert v as char == c;
    } else {
      DecodeStep(c, rest);
    }
  }

  /** Whatever the text, the corrected escaper yields a JSON string body that decodes back to it. */
  lemma {:induction false} StrictEscapeRoundTrip(s: string)
    ensures Decode(StrictEscape(s)) == Some(s)
  {
    if s != [] {
      StrictEscapeRoundTrip(s[1..]);
      StrictDecodeStep(s[0], StrictEscape(s[1..]));
      assert [s[0]] + s[1..] == s;
    }
  }

  /** On text without bare control characters the corrected escaper and the source agree. */
  lemma {:induction false} StrictAgreesWhenNoBareControl(s: string)
    requires NoBareControl(s)
    ensures StrictEscape(s) == EscapeMap(s)
  {
    if s != [] {
      assert !IsBareControl(s[0]);
      assert forall i :: 0 <= i < |s[1..]| ==> s[1..][i] == s[i + 1];
      StrictAgreesWhenNoBareControl(s[1..]);
    }
  }

  /** `escape_for_json` with the corrected per-character map. */
  function EscapeForJsonStrict(text: Arg): (r: string)
    ensures text.NonText? ==> r == text.rendered
    ensures text.Text? ==> Decode(r) == Some(text.s)
  {
    match text
    case NonText(rendered) => rendered
    case Text(s) => StrictEscapeRoundTrip(s); StrictEscape(s)
  }
}
