/**
 * `JSON.stringify` on the values the hook serialises: strings, `undefined`
 * and plain objects whose members keep insertion order. A member whose value
 * is `undefined` is left out of the text; string contents are escaped as the
 * JavaScript function escapes them (quote, backslash and control characters).
 */
module Json {
  import opened Wrappers
  import opened Text

  datatype Json = JUndefined | JString(s: string) | JObject(members: seq<(string, Json)>)

  function EscapeChar(c: char): string {
    if c == '"' then "\\\""
    else if c == '\\' then "\\\\"
    else if c as int == 0x08 then "\\b"
    else if c as int == 0x0C then "\\f"
    else if c == '\n' then "\\n"
    else if c == '\r' then "\\r"
    else if c == '\t' then "\\t"
    else if c as int < 0x20 then ['\\', 'u', '0', '0', HexDigit(c as int / 16, false), HexDigit(c as int % 16, false)]
    else [c]
  }

  function Escape(s: string): string {
    if |s| == 0 then "" else EscapeChar(s[0]) + Escape(s[1..])
  }

  /** The JSON text of a string. */
  function Quote(s: string): string {
    "\"" + Escape(s) + "\""
  }

  /** `JSON.stringify(j)`: `undefined` has no text, every other value has one. */
  function Stringify(j: Json): (r: Option<string>)
    ensures r.None? <==> j.JUndefined?
    decreases j, 1
  {
    match j
    case JUndefined => None
    case JString(s) => Some(Quote(s))
    case JObject(ms) => Some("{" + Join(",", MemberTexts(ms, j)) + "}")
  }

  /** The `"key":value` texts of the members whose values are not `undefined`, in order. */
  function MemberTexts(ms: seq<(string, Json)>, ghost parent: Json): (r: seq<string>)
    requires parent.JObject? && forall m :: m in ms ==> m in parent.members
    ensures |r| <= |ms|
    decreases parent, 0, |ms|
  {
    if |ms| == 0 then []
    else
      assert ms[0] in parent.members;
      var head := Stringify(ms[0].1);
      var rest := MemberTexts(ms[1..], parent);
      if head.Some? then [Quote(ms[0].0) + ":" + head.value] + rest else rest
  }

  /** The text of an object. */
  function StringifyObject(ms: seq<(string, Json)>): string {
    Stringify(JObject(ms)).value
  }

  /** The members that survive serialisation. */
  function Defined(ms: seq<(string, Json)>): (r: seq<(string, Json)>)
    ensures forall i :: 0 <= i < |r| ==> !r[i].1.JUndefined?
  {
    if |ms| == 0 then []
    else if ms[0].1.JUndefined? then Defined(ms[1..])
    else [ms[0]] + Defined(ms[1..])
  }

  /** Members whose value is `undefined` do not show in the text. */
  lemma StringifyOmitsUndefined(ms: seq<(string, Json)>)
    ensures StringifyObject(ms) == StringifyObject(Defined(ms))
  {
    MemberTextsOmitUndefined(ms, JObject(ms), JObject(Defined(ms)));
  }

  lemma {:induction false} MemberTextsOmitUndefined(ms: seq<(string, Json)>, p: Json, q: Json)
    requires p.JObject? && forall m :: m in ms ==> m in p.members
    requires q.JObject? && forall m :: m in Defined(ms) ==> m in q.members
    ensures MemberTexts(ms, p) == MemberTexts(Defined(ms), q)
  {
    if |ms| > 0 {
      DefinedSubset(ms[1..]);
      MemberTextsOmitUndefined(ms[1..], p, q);
      if !ms[0].1.JUndefined? {
        assert ([ms[0]] + Defined(ms[1..]))[1..] == Defined(ms[1..]);
      }
    }
  }

  lemma {:induction false} DefinedSubset(ms: seq<(string, Json)>)
    ensures forall m :: m in Defined(ms) ==> m in ms
  {
    if |ms| > 0 {
      DefinedSubset(ms[1..]);
    }
  }

  /** Reads JSON string escapes back; any other character stands for itself. */
  function Unescape(t: string): string
    decreases |t|
  {
    if |t| == 0 then ""
    else if t[0] == '\\' && |t| >= 2 then
      var e := t[1];
      if e == '"' || e == '\\' || e == '/' then [e] + Unescape(t[2..])
      else if e == 'b' then [0x08 as char] + Unescape(t[2..])
      else if e == 'f' then [0x0C as char] + Unescape(t[2..])
      else if e == 'n' then ['\n'] + Unescape(t[2..])
      else if e == 'r' then ['\r'] + Unescape(t[2..])
      else if e == 't' then ['\t'] + Unescape(t[2..])
      else if e == 'u' && |t| >= 6 && IsHexDigit(t[2]) && IsHexDigit(t[3]) && IsHexDigit(t[4]) && IsHexDigit(t[5]) then
        var v := 4096 * HexValue(t[2]) + 256 * HexValue(t[3]) + 16 * HexValue(t[4]) + HexValue(t[5]);
        if v < 0xD800 then [v as char] + Unescape(t[6..]) else [t[0]] + Unescape(t[1..])
      else [t[0]] + Unescape(t[1..])
    else [t[0]] + Unescape(t[1..])
  }

  lemma UnescapeChar(c: char, rest: string)
    ensures Unescape(EscapeChar(c) + rest) == [c] + Unescape(rest)
  {
    var t := EscapeChar(c) + rest;
    if |EscapeChar(c)| == 2 {
      assert t[2..] == rest;
    } else if |EscapeChar(c)| == 6 {
      assert t[6..] == rest;
      var v := 4096 * HexValue(t[2]) + 256 * HexValue(t[3]) + 16 * HexValue(t[4]) + HexValue(t[5]);
      assert v == 16 * (c as int / 16) + c as int % 16;
    } else {
      assert t[1..] == rest;
    }
  }

  /** Unescaping an escaped string gives the string back. */
  lemma {:induction false} UnescapeEscape(s: string)
    ensures Unescape(Escape(s)) == s
  {
    if |s| > 0 {
      UnescapeChar(s[0], Escape(s[1..]));
      UnescapeEscape(s[1..]);
      assert [s[0]] + s[1..] == s;
    }
  }

  /** `o` moved `n` characters further on. */
  function Later(o: Option<nat>, n: nat): Option<nat> {
    if o.Some? then Some(o.value + n) else None
  }

  /**
   * How a JSON reader finds the end of a string literal's body: `\x` pairs
   * are consumed whole, and the first other `"` is the closing quote.
   */
  function LiteralEnd(t: string): (r: Option<nat>)
    ensures r.Some? ==> r.value < |t| && t[r.value] == '"'
    decreases |t|
  {
    if |t| == 0 then None
    else if t[0] == '"' then Some(0)
    else if t[0] == '\\' then
      if |t| < 2 then None
      else
        var r := LiteralEnd(t[2..]);
        assert r.Some? ==> t[r.value + 2] == t[2..][r.value];
        Later(r, 2)
    else
      var r := LiteralEnd(t[1..]);
      assert r.Some? ==> t[r.value + 1] == t[1..][r.value];
      Later(r, 1)
  }

  /** A character other than `"` and `\\` is passed over on its own. */
  lemma LiteralEndPlain(x: char, t: string)
    requires x != '"' && x != '\\'
    ensures LiteralEnd([x] + t) == Later(LiteralEnd(t), 1)
  {
    assert ([x] + t)[1..] == t;
  }

  /** A backslash and the character after it are passed over together. */
  lemma LiteralEndPair(y: char, t: string)
    ensures LiteralEnd(['\\', y] + t) == Later(LiteralEnd(t), 2)
  {
    assert (['\\', y] + t)[2..] == t;
  }

  /** The three shapes of an escape: a plain character, a `\\x` pair, or `\\u00XY`. */
  predicate EscapeShape(e: string) {
    || (|e| == 1 && e[0] != '"' && e[0] != '\\')
    || (|e| == 2 && e[0] == '\\')
    || (|e| == 6 && e[..4] == ['\\', 'u', '0', '0'] && e[4] !in "\"\\" && e[5] !in "\"\\")
  }

  lemma EscapeCharShape(c: char)
    ensures EscapeShape(EscapeChar(c))
  {
  }

  /** The reader passes over a whole escape. */
  lemma LiteralEndSkipsShape(e: string, t: string)
    requires EscapeShape(e)
    ensures LiteralEnd(e + t) == Later(LiteralEnd(t), |e|)
  {
    if |e| == 1 {
      assert e == [e[0]];
      LiteralEndPlain(e[0], t);
    } else if |e| == 2 {
      assert e == ['\\', e[1]];
      LiteralEndPair(e[1], t);
    } else {
      assert e == ['\\', 'u', '0', '0', e[4], e[5]];
      LiteralEndUnicode(e[4], e[5], t);
    }
  }

  /** The reader passes over a `\\u00XY` escape. */
  lemma LiteralEndUnicode(h1: char, h2: char, t: string)
    requires h1 != '"' && h1 != '\\' && h2 != '"' && h2 != '\\'
    ensures LiteralEnd(['\\', 'u', '0', '0', h1, h2] + t) == Later(LiteralEnd(t), 6)
  {
    var digits := ['0', '0', h1, h2];
    LiteralEndPlainRun(digits, t);
    LiteralEndPair('u', digits + t);
    assert ['\\', 'u', '0', '0', h1, h2] + t == ['\\', 'u'] + (digits + t);
  }

  /** A run without `"` or `\\` is passed over character by character. */
  lemma {:induction false} LiteralEndPlainRun(run: string, t: string)
    requires forall i :: 0 <= i < |run| ==> run[i] != '"' && run[i] != '\\'
    ensures LiteralEnd(run + t) == Later(LiteralEnd(t), |run|)
  {
    if |run| > 0 {
      LiteralEndPlainRun(run[1..], t);
      LiteralEndPlain(run[0], run[1..] + t);
      assert run + t == [run[0]] + (run[1..] + t);
      assert Later(Later(LiteralEnd(t), |run| - 1), 1) == Later(LiteralEnd(t), |run|);
    } else {
      assert run + t == t;
    }
  }

  /**
   * A reader that starts after the opening quote of `Quote(s)` stops at its
   * closing quote: no key or address can end the literal early.
   */
  lemma {:induction false} EscapedLiteralEnd(s: string, rest: string)
    ensures LiteralEnd(Escape(s) + "\"" + rest) == Some(|Escape(s)|)
  {
    if |s| == 0 {
      assert Escape(s) + "\"" + rest == "\"" + rest;
    } else {
      EscapedLiteralEnd(s[1..], rest);
      EscapeCharShape(s[0]);
      LiteralEndSkipsShape(EscapeChar(s[0]), Escape(s[1..]) + "\"" + rest);
      assert Escape(s) + "\"" + rest == EscapeChar(s[0]) + (Escape(s[1..]) + "\"" + rest);
    }
  }

  /** In the JSON text of a string, the literal opened by its first character closes at its last. */
  lemma QuoteClosesAtEnd(s: string, rest: string)
    ensures LiteralEnd((Quote(s) + rest)[1..]) == Some(|Quote(s)| - 2)
  {
    EscapedLiteralEnd(s, rest);
    assert (Quote(s) + rest)[1..] == Escape(s) + "\"" + rest;
  }
}
