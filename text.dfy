/**
 * String operations with the meaning JavaScript gives them: `join`, `split` on a
 * one-character separator, `indexOf`, `startsWith`, the `\s` character class,
 * `replace(/\s+/g, ' ')`, `trim` and the decimal rendering of a number in a template
 * string. Strings are sequences of characters; the model does not distinguish UTF-16
 * code units from Unicode scalar values.
 */
module Text {

  /** `parts.join(sep)`. */
  function Join(parts: seq<string>, sep: string): string
    decreases |parts|
  {
    if |parts| == 0 then ""
    else if |parts| == 1 then parts[0]
    else parts[0] + sep + Join(parts[1..], sep)
  }

  /** `s.startsWith(prefix)`. */
  predicate StartsWith(s: string, prefix: string) {
    |prefix| <= |s| && s[..|prefix|] == prefix
  }

  /** `s.endsWith(suffix)`. */
  predicate EndsWith(s: string, suffix: string) {
    |suffix| <= |s| && s[|s| - |suffix|..] == suffix
  }

  /** `s.repeat(n)`. */
  function Repeat(s: string, n: nat): (r: string)
    ensures |r| == n * |s|
  {
    if n == 0 then "" else s + Repeat(s, n - 1)
  }

  /** `s.indexOf(c)`: the first position of `c` in `s`, or -1. */
  function IndexOf(s: string, c: char): (i: int)
    ensures -1 <= i < |s|
    ensures i == -1 <==> c !in s
    ensures 0 <= i ==> s[i] == c && c !in s[..i]
  {
    if |s| == 0 then -1
    else if s[0] == c then 0
    else
      var j := IndexOf(s[1..], c);
      assert s[1..][..if j < 0 then 0 else j] == s[1..if j < 0 then 1 else j + 1];
      if j < 0 then -1 else j + 1
  }

  /** `s.split(c)` for a one-character separator: never empty, "" splits into [""]. */
  function Split(s: string, c: char): (parts: seq<string>)
    ensures |parts| >= 1
    decreases |s|
  {
    var i := IndexOf(s, c);
    if i < 0 then [s] else [s[..i]] + Split(s[i + 1..], c)
  }

  /** The separator is found right after a prefix that does not hold it. */
  lemma IndexOfAfter(a: string, c: char, b: string)
    requires c !in a
    ensures IndexOf(a + [c] + b, c) == |a|
  {
    var s := a + [c] + b;
    assert s[|a|] == c;
    assert s[..|a|] == a;
  }

  /** Splitting gives back the pieces: none of them holds the separator and joining restores the input. */
  lemma {:induction false} SplitJoinsBack(s: string, c: char)
    ensures forall k :: 0 <= k < |Split(s, c)| ==> c !in Split(s, c)[k]
    ensures Join(Split(s, c), [c]) == s
    decreases |s|
  {
    var i := IndexOf(s, c);
    if i >= 0 {
      var rest := s[i + 1..];
      var tail := Split(rest, c);
      SplitJoinsBack(rest, c);
      var parts := [s[..i]] + tail;
      assert Split(s, c) == parts;
      assert parts[1..] == tail;
      assert Join(parts, [c]) == s[..i] + [c] + Join(tail, [c]);
      assert s == s[..i] + [c] + rest;
      forall k | 0 <= k < |parts| ensures c !in parts[k] {
        if k > 0 { assert parts[k] == tail[k - 1]; }
      }
    }
  }

  /** Joining pieces free of the separator and splitting again gives the pieces back. */
  lemma {:induction false} JoinSplitsBack(parts: seq<string>, c: char)
    requires |parts| >= 1
    requires forall k :: 0 <= k < |parts| ==> c !in parts[k]
    ensures Split(Join(parts, [c]), c) == parts
    decreases |parts|
  {
    if |parts| > 1 {
      var rest := Join(parts[1..], [c]);
      IndexOfAfter(parts[0], c, rest);
      var s := parts[0] + [c] + rest;
      assert s[..|parts[0]|] == parts[0];
      assert s[|parts[0]| + 1..] == rest;
      assert Join(parts, [c]) == s;
      assert Split(s, c) == [parts[0]] + Split(rest, c);
      JoinSplitsBack(parts[1..], c);
      assert parts == [parts[0]] + parts[1..];
    }
  }

  /** The characters matched by `\s` in a JavaScript regular expression. */
  predicate IsWhitespace(c: char) {
    || c == ' ' || c == '\t' || c == '\n' || c == '\r' || c == '\U{B}' || c == '\U{C}'
    || c == '\U{A0}' || c == '\U{1680}' || ('\U{2000}' <= c <= '\U{200A}')
    || c == '\U{2028}' || c == '\U{2029}' || c == '\U{202F}' || c == '\U{205F}'
    || c == '\U{3000}' || c == '\U{FEFF}'
  }

  /** Drops the leading run of whitespace. */
  function DropWhitespace(s: string): (r: string)
    ensures |r| <= |s| && r == s[|s| - |r|..]
    ensures r == [] || !IsWhitespace(r[0])
    ensures forall k :: 0 <= k < |s| - |r| ==> IsWhitespace(s[k])
  {
    if s != [] && IsWhitespace(s[0]) then DropWhitespace(s[1..]) else s
  }

  /** `s.replace(/\s+/g, ' ')`: every maximal run of whitespace becomes one space. */
  function CollapseWhitespace(s: string): string
    decreases |s|
  {
    if s == [] then []
    else if IsWhitespace(s[0]) then [' '] + CollapseWhitespace(DropWhitespace(s[1..]))
    else [s[0]] + CollapseWhitespace(s[1..])
  }

  /** No whitespace but single spaces, and never two whitespace characters in a row. */
  predicate Collapsed(t: string) {
    forall i :: 0 <= i < |t| && IsWhitespace(t[i]) ==> t[i] == ' ' && (i + 1 < |t| ==> !IsWhitespace(t[i + 1]))
  }

  /** The non-whitespace characters of `s`, in order. */
  function Visible(s: string): string {
    if s == [] then [] else (if IsWhitespace(s[0]) then [] else [s[0]]) + Visible(s[1..])
  }

  /** Visible text of a whitespace run is empty. */
  lemma {:induction false} VisibleOfDropped(s: string)
    ensures Visible(DropWhitespace(s)) == Visible(s)
    decreases |s|
  {
    if s != [] && IsWhitespace(s[0]) {
      VisibleOfDropped(s[1..]);
    }
  }

  /**
   * Collapsing keeps every visible character in order, is empty exactly when the
   * input is, never lengthens it, starts with whitespace exactly when the input does,
   * and leaves a collapsed string.
   */
  lemma {:induction false} CollapseShape(s: string)
    ensures Visible(CollapseWhitespace(s)) == Visible(s)
    ensures |CollapseWhitespace(s)| <= |s|
    ensures CollapseWhitespace(s) == [] <==> s == []
    ensures s != [] ==> (IsWhitespace(CollapseWhitespace(s)[0]) <==> IsWhitespace(s[0]))
    decreases |s|
  {
    if s != [] {
      var r := CollapseWhitespace(s);
      if IsWhitespace(s[0]) {
        var rest := DropWhitespace(s[1..]);
        CollapseShape(rest);
        VisibleOfDropped(s[1..]);
        assert r == [' '] + CollapseWhitespace(rest);
        assert Visible(r) == Visible(CollapseWhitespace(rest));
      } else {
        CollapseShape(s[1..]);
        assert r == [s[0]] + CollapseWhitespace(s[1..]);
        assert Visible(r) == [s[0]] + Visible(CollapseWhitespace(s[1..]));
      }
    }
  }

  /** Putting a visible character, or a space before a visible one, in front of a collapsed string keeps it collapsed. */
  lemma CollapsedCons(x: char, t: string)
    requires Collapsed(t)
    requires IsWhitespace(x) ==> x == ' ' && (t == [] || !IsWhitespace(t[0]))
    ensures Collapsed([x] + t)
  {
    var r := [x] + t;
    forall i | 0 <= i < |r| && IsWhitespace(r[i])
      ensures r[i] == ' ' && (i + 1 < |r| ==> !IsWhitespace(r[i + 1]))
    {
      if i > 0 {
        assert r[i] == t[i - 1];
        if i + 1 < |r| {
          assert r[i + 1] == t[i];
        }
      }
    }
  }

  /** Collapsing leaves a collapsed string. */
  lemma {:induction false} CollapseIsCollapsed(s: string)
    ensures Collapsed(CollapseWhitespace(s))
    decreases |s|
  {
    if s != [] {
      if IsWhitespace(s[0]) {
        var rest := DropWhitespace(s[1..]);
        CollapseIsCollapsed(rest);
        CollapseShape(rest);
        CollapsedCons(' ', CollapseWhitespace(rest));
      } else {
        CollapseIsCollapsed(s[1..]);
        CollapsedCons(s[0], CollapseWhitespace(s[1..]));
      }
    }
  }

  /** A collapsed string is left as it is. */
  lemma {:induction false} CollapseOfCollapsed(t: string)
    requires Collapsed(t)
    ensures CollapseWhitespace(t) == t
    decreases |t|
  {
    if t != [] {
      assert Collapsed(t[1..]) by {
        forall i | 0 <= i < |t[1..]| && IsWhitespace(t[1..][i])
          ensures t[1..][i] == ' ' && (i + 1 < |t[1..]| ==> !IsWhitespace(t[1..][i + 1]))
        {
          assert t[1..][i] == t[i + 1];
        }
      }
      if IsWhitespace(t[0]) {
        assert DropWhitespace(t[1..]) == t[1..];
      }
      CollapseOfCollapsed(t[1..]);
    }
  }

  /** Collapsing twice is collapsing once. */
  lemma CollapseIdempotent(s: string)
    ensures CollapseWhitespace(CollapseWhitespace(s)) == CollapseWhitespace(s)
  {
    CollapseIsCollapsed(s);
    CollapseOfCollapsed(CollapseWhitespace(s));
  }

  /** Drops the trailing run of whitespace. */
  function DropTrailingWhitespace(s: string): (r: string)
    ensures |r| <= |s| && r == s[..|r|]
    ensures r == [] || !IsWhitespace(r[|r| - 1])
    ensures forall k :: |r| <= k < |s| ==> IsWhitespace(s[k])
  {
    if s != [] && IsWhitespace(s[|s| - 1]) then DropTrailingWhitespace(s[..|s| - 1]) else s
  }

  /** `s.trim()`. */
  function Trim(s: string): string {
    DropTrailingWhitespace(DropWhitespace(s))
  }

  /** Trimming leaves nothing exactly when the input is all whitespace. */
  lemma TrimIsEmpty(s: string)
    ensures Trim(s) == "" <==> forall k :: 0 <= k < |s| ==> IsWhitespace(s[k])
  {
  }

  /** The digit character for `d`. */
  function DigitChar(d: nat): (c: char)
    requires d < 10
  {
    (48 + d) as char
  }

  /** The value of a digit character. */
  function DigitValue(c: char): nat
    requires '0' <= c <= '9'
  {
    c as int - 48
  }

  /** `${n}` for a natural number: its decimal digits, without leading zeros. */
  function NatToString(n: nat): (r: string)
    ensures |r| >= 1
    ensures forall k :: 0 <= k < |r| ==> '0' <= r[k] <= '9'
    ensures n >= 10 ==> |r| >= 2
  {
    if n < 10 then [DigitChar(n)] else NatToString(n / 10) + [DigitChar(n % 10)]
  }

  /** Reads a string of decimal digits as a number. */
  function ParseNat(s: string): nat
    requires forall k :: 0 <= k < |s| ==> '0' <= s[k] <= '9'
  {
    if s == [] then 0 else ParseNat(s[..|s| - 1]) * 10 + DigitValue(s[|s| - 1])
  }

  /** Reading back the decimal rendering gives the number. */
  lemma {:induction false} ParseNatToString(n: nat)
    ensures ParseNat(NatToString(n)) == n
  {
    var r := NatToString(n);
    if n >= 10 {
      ParseNatToString(n / 10);
      assert r[..|r| - 1] == NatToString(n / 10);
    }
  }

  /** Two numbers with the same decimal rendering are equal. */
  lemma NatToStringInjective(a: nat, b: nat)
    requires NatToString(a) == NatToString(b)
    ensures a == b
  {
    ParseNatToString(a);
    ParseNatToString(b);
  }
}
