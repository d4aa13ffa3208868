/**
 * The handful of JavaScript string operations the core relies on, over
 * `string` = `seq<char>`: `startsWith`, `indexOf` of one character,
 * `includes`, `split` on one character, `join`, `trim`, and the
 * whitespace class shared by `String.prototype.trim` and the regular
 * expression class `\s`.
 */
module Strings {

  /** `s.startsWith(prefix)` */
  predicate StartsWith(s: string, prefix: string) {
    |prefix| <= |s| && s[..|prefix|] == prefix
  }

  /** `s.indexOf(c)`: the first position of `c`, or -1 when there is none. */
  function IndexOf(s: string, c: char): (r: int)
    ensures -1 <= r < |s|
    ensures 0 <= r ==> s[r] == c && c !in s[..r]
    ensures r == -1 <==> c !in s
  {
    if s == [] then -1
    else if s[0] == c then 0
    else
      var k := IndexOf(s[1..], c);
      assert s == [s[0]] + s[1..];
      if k < 0 then -1 else k + 1
  }

  /** `t` occurs in `s` at position `i`. */
  predicate OccursAt(s: string, t: string, i: int) {
    0 <= i && i + |t| <= |s| && s[i..i + |t|] == t
  }

  /** `s.includes(t)`: some window of `s` spells `t`. */
  function Contains(s: string, t: string): (r: bool)
    ensures r <==> exists i :: OccursAt(s, t, i)
  {
    if StartsWith(s, t) then
      assert OccursAt(s, t, 0);
      true
    else if s == [] then
      assert forall i :: OccursAt(s, t, i) ==> i == 0;
      false
    else
      var r := Contains(s[1..], t);
      if r then
        var i :| OccursAt(s[1..], t, i);
        TailWindow(s, i + 1, i + 1 + |t|);
        assert OccursAt(s, t, i + 1);
        true
      else
        forall i | 1 <= i ensures OccursAt(s, t, i) == OccursAt(s[1..], t, i - 1) {
          if i + |t| <= |s| {
            TailWindow(s, i, i + |t|);
          }
        }
        false
  }

  /** A window of `s[1..]` is the window of `s` one position further on. */
  lemma TailWindow(s: string, a: int, b: int)
    requires 1 <= a <= b <= |s|
    ensures s[1..][a - 1..b - 1] == s[a..b]
  {
    assert forall k :: 0 <= k < b - a ==> s[1..][a - 1..b - 1][k] == s[a..b][k];
  }

  /** `s.split(c)`: the pieces between occurrences of `c`; never empty. */
  function Split(s: string, c: char): (pieces: seq<string>)
    ensures |pieces| >= 1
    ensures forall k :: 0 <= k < |pieces| ==> c !in pieces[k]
    decreases |s|
  {
    var i := IndexOf(s, c);
    if i < 0 then [s] else [s[..i]] + Split(s[i + 1..], c)
  }

  /** `pieces.join(sep)` */
  function Join(pieces: seq<string>, sep: string): string {
    if pieces == [] then ""
    else if |pieces| == 1 then pieces[0]
    else pieces[0] + sep + Join(pieces[1..], sep)
  }

  /** The first `c` of `a + [c] + b` is the one after `a` when `a` has none. */
  lemma IndexOfAfter(a: string, c: char, b: string)
    requires c !in a
    ensures IndexOf(a + [c] + b, c) == |a|
  {
    var s := a + [c] + b;
    assert s[|a|] == c && s[..|a|] == a;
  }

  /** Splitting `a + [c] + b` on `c`, where `a` has no `c`, gives `a` and then the pieces of `b`. */
  lemma SplitAfter(a: string, c: char, b: string)
    requires c !in a
    ensures Split(a + [c] + b, c) == [a] + Split(b, c)
  {
    IndexOfAfter(a, c, b);
    var s := a + [c] + b;
    assert s[..|a|] == a && s[|a| + 1..] == b;
  }

  /** A string without `c` is a single piece. */
  lemma SplitNone(s: string, c: char)
    requires c !in s
    ensures Split(s, c) == [s]
  {
  }

  /** The first piece of `s.split(c)` is the text before the first `c`. */
  lemma SplitHead(s: string, c: char)
    ensures Split(s, c)[0] == if IndexOf(s, c) < 0 then s else s[..IndexOf(s, c)]
  {
  }

  /** The second piece of `s.split(c)` is the first piece of what follows the first `c`. */
  lemma SplitSecond(s: string, c: char)
    requires |Split(s, c)| > 1
    ensures IndexOf(s, c) >= 0
    ensures Split(s, c)[1] == Split(s[IndexOf(s, c) + 1..], c)[0]
  {
  }

  /**
   * ECMAScript WhiteSpace and LineTerminator code points: the set that
   * `String.prototype.trim` removes and that the class `\s` matches.
   */
  predicate IsWhitespace(c: char) {
    || c == '\t' || c == '\n' || c == '\U{000B}' || c == '\U{000C}' || c == '\r'
    || c == ' ' || c == '\U{00A0}' || c == '\U{1680}'
    || ('\U{2000}' <= c <= '\U{200A}')
    || c == '\U{2028}' || c == '\U{2029}' || c == '\U{202F}' || c == '\U{205F}'
    || c == '\U{3000}' || c == '\U{FEFF}'
  }

  predicate AllWhitespace(s: string) {
    forall k :: 0 <= k < |s| ==> IsWhitespace(s[k])
  }

  function TrimStart(s: string): (r: string)
    ensures r == [] || !IsWhitespace(r[0])
    ensures exists lead :: AllWhitespace(lead) && s == lead + r
  {
    if s != [] && IsWhitespace(s[0]) then
      var r := TrimStart(s[1..]);
      var lead :| AllWhitespace(lead) && s[1..] == lead + r;
      var longer := [s[0]] + lead;
      assert AllWhitespace(longer) by {
        forall k | 0 <= k < |longer| ensures IsWhitespace(longer[k]) {
          if k > 0 { assert longer[k] == lead[k - 1]; }
        }
      }
      assert s == longer + r by { assert s == [s[0]] + s[1..]; }
      r
    else
      assert AllWhitespace([]) && s == [] + s;
      s
  }

  function TrimEnd(s: string): (r: string)
    ensures r == [] || !IsWhitespace(r[|r| - 1])
    ensures exists trail :: AllWhitespace(trail) && s == r + trail
  {
    if s != [] && IsWhitespace(s[|s| - 1]) then
      var r := TrimEnd(s[..|s| - 1]);
      var trail :| AllWhitespace(trail) && s[..|s| - 1] == r + trail;
      var longer := trail + [s[|s| - 1]];
      assert AllWhitespace(longer) by {
        forall k | 0 <= k < |longer| ensures IsWhitespace(longer[k]) {
          if k < |trail| { assert longer[k] == trail[k]; }
        }
      }
      assert s == r + longer by { assert s == s[..|s| - 1] + [s[|s| - 1]]; }
      r
    else
      assert AllWhitespace([]) && s == s + [];
      s
  }

  /** `s.trim()`: `s` without its leading and trailing whitespace. */
  function Trim(s: string): (r: string)
    ensures r == [] || (!IsWhitespace(r[0]) && !IsWhitespace(r[|r| - 1]))
    ensures exists lead, trail :: AllWhitespace(lead) && AllWhitespace(trail) && s == lead + r + trail
  {
    var t := TrimStart(s);
    var r := TrimEnd(t);
    var lead :| AllWhitespace(lead) && s == lead + t;
    var trail :| AllWhitespace(trail) && t == r + trail;
    assert s == lead + r + trail;
    r
  }
}
