/**
 * The JavaScript string operations the hook relies on: ASCII case mapping
 * (`toLowerCase`, `toUpperCase`), `Array.prototype.join` on strings, a
 * single-character split used to read joined lists back, and hexadecimal
 * digits.
 */
module Text {

  predicate IsUpper(c: char) { 'A' <= c <= 'Z' }

  predicate IsLower(c: char) { 'a' <= c <= 'z' }

  function LowerChar(c: char): char {
    if IsUpper(c) then (c as int + 32) as char else c
  }

  function UpperChar(c: char): char {
    if IsLower(c) then (c as int - 32) as char else c
  }

  /** Two characters that are the same letter, ignoring case, or the same other character. */
  predicate SameIgnoringCase(a: char, b: char) {
    UpperChar(a) == UpperChar(b)
  }

  /** `String.prototype.toLowerCase` on ASCII letters. */
  function ToLowerCase(s: string): (r: string)
    ensures |r| == |s|
    ensures forall i :: 0 <= i < |r| ==> !IsUpper(r[i]) && SameIgnoringCase(r[i], s[i])
  {
    seq(|s|, i requires 0 <= i < |s| => LowerChar(s[i]))
  }

  /** `String.prototype.toUpperCase` on ASCII letters. */
  function ToUpperCase(s: string): (r: string)
    ensures |r| == |s|
    ensures forall i :: 0 <= i < |r| ==> !IsLower(r[i]) && SameIgnoringCase(r[i], s[i])
  {
    seq(|s|, i requires 0 <= i < |s| => UpperChar(s[i]))
  }

  /** Lower-casing twice gives what lower-casing once gives. */
  lemma ToLowerCaseIdempotent(s: string)
    ensures ToLowerCase(ToLowerCase(s)) == ToLowerCase(s)
  {
    var once := ToLowerCase(s);
    var twice := ToLowerCase(once);
    forall i | 0 <= i < |s| ensures twice[i] == once[i] {
      assert !IsUpper(once[i]);
    }
  }

  /** `xs.join(sep)`: the elements with `sep` between neighbours. */
  function Join(sep: string, xs: seq<string>): (r: string)
    ensures |xs| == 1 ==> r == xs[0]
  {
    if |xs| == 0 then ""
    else if |xs| == 1 then xs[0]
    else xs[0] + sep + Join(sep, xs[1..])
  }

  /** The pieces of `s` between occurrences of `d` (at least one piece, none holding `d`). */
  function Split(s: string, d: char): (parts: seq<string>)
    ensures |parts| >= 1
    ensures forall i :: 0 <= i < |parts| ==> d !in parts[i]
  {
    if |s| == 0 then [""]
    else
      var rest := Split(s[1..], d);
      if s[0] == d then [""] + rest
      else [[s[0]] + rest[0]] + rest[1..]
  }

  /** A prefix free of the delimiter extends the first piece. */
  lemma {:induction false} SplitPrefix(x: string, t: string, d: char)
    requires d !in x
    ensures Split(x + t, d) == [x + Split(t, d)[0]] + Split(t, d)[1..]
  {
    if |x| > 0 {
      assert (x + t)[1..] == x[1..] + t;
      SplitPrefix(x[1..], t, d);
      assert [x[0]] + (x[1..] + Split(t, d)[0]) == x + Split(t, d)[0];
    } else {
      assert x + t == t;
      assert x + Split(t, d)[0] == Split(t, d)[0];
    }
  }

  /** Splitting a join on a single-character separator gives the elements back. */
  lemma {:induction false} SplitJoin(xs: seq<string>, d: char)
    requires |xs| > 0
    requires forall i :: 0 <= i < |xs| ==> d !in xs[i]
    ensures Split(Join([d], xs), d) == xs
  {
    if |xs| == 1 {
      SplitPrefix(xs[0], "", d);
      assert xs[0] + "" == xs[0];
    } else {
      var rest := Join([d], xs[1..]);
      SplitJoin(xs[1..], d);
      assert Join([d], xs) == xs[0] + ([d] + rest);
      SplitPrefix(xs[0], [d] + rest, d);
      assert ([d] + rest)[1..] == rest;
      assert Split([d] + rest, d) == [""] + xs[1..];
      assert xs[0] + "" == xs[0];
    }
  }

  /** Every piece of a join of `n` strings is the matching element: the join has `n` pieces. */
  lemma JoinPieceCount(xs: seq<string>, d: char)
    requires |xs| > 0
    requires forall i :: 0 <= i < |xs| ==> d !in xs[i]
    ensures |Split(Join([d], xs), d)| == |xs|
  {
    SplitJoin(xs, d);
  }

  predicate IsHexDigit(c: char) {
    '0' <= c <= '9' || 'A' <= c <= 'F' || 'a' <= c <= 'f'
  }

  function HexValue(c: char): (n: nat)
    requires IsHexDigit(c)
    ensures n < 16
  {
    if '0' <= c <= '9' then c as int - '0' as int
    else if 'A' <= c <= 'F' then c as int - 'A' as int + 10
    else c as int - 'a' as int + 10
  }

  /** The digit for `n`, in upper case (`encodeURIComponent`) or lower case (`JSON.stringify`). */
  function HexDigit(n: nat, upper: bool): (c: char)
    requires n < 16
    ensures IsHexDigit(c) && HexValue(c) == n
    ensures upper ==> !IsLower(c)
    ensures !upper ==> !IsUpper(c)
  {
    if n < 10 then ('0' as int + n) as char
    else if upper then ('A' as int + n - 10) as char
    else ('a' as int + n - 10) as char
  }
}
