/**
  The JavaScript string operations the message handler relies on:
  String.prototype.trim, toLowerCase, startsWith and split with a one-character separator.
 */
module JsText {

  /** The characters JavaScript's trim removes: WhiteSpace and LineTerminator (ECMAScript, section 12.2 and 12.3). */
  predicate IsJsWhitespace(c: char) {
    if c <= ' ' then
      ('\t' <= c <= '\r') || c == ' '
    else
      && '\U{A0}' <= c
      && (|| c == '\U{A0}' || c == '\U{1680}'
          || ('\U{2000}' <= c <= '\U{200A}')
          || c == '\U{2028}' || c == '\U{2029}' || c == '\U{202F}' || c == '\U{205F}'
          || c == '\U{3000}' || c == '\U{FEFF}')
  }

  ghost predicate AllSpace(s: string) {
    forall i | 0 <= i < |s| :: IsJsWhitespace(s[i])
  }

  /** The length of the longest all-whitespace prefix of s. */
  function LeadingSpace(s: string): (k: nat)
    ensures k <= |s|
    ensures AllSpace(s[..k])
    ensures k < |s| ==> !IsJsWhitespace(s[k])
  {
    if s == [] || !IsJsWhitespace(s[0]) then 0 else 1 + LeadingSpace(s[1..])
  }

  /** The length of the longest all-whitespace suffix of s. */
  function TrailingSpace(s: string): (k: nat)
    ensures k <= |s|
    ensures AllSpace(s[|s| - k..])
    ensures k < |s| ==> !IsJsWhitespace(s[|s| - 1 - k])
  {
    if s == [] || !IsJsWhitespace(s[|s| - 1]) then 0 else 1 + TrailingSpace(s[..|s| - 1])
  }

  /** s without its leading whitespace, as the first step of parseInt does. */
  function TrimStart(s: string): (r: string)
    ensures r == [] || !IsJsWhitespace(r[0])
    ensures exists k | 0 <= k <= |s| :: AllSpace(s[..k]) && s[k..] == r
  {
    var k := LeadingSpace(s);
    s[k..]
  }

  /** String.prototype.trim: s without leading and trailing whitespace. */
  function Trim(s: string): (r: string)
    ensures r == [] || (!IsJsWhitespace(r[0]) && !IsJsWhitespace(r[|r| - 1]))
    ensures exists k | 0 <= k <= |s| - |r| :: AllSpace(s[..k]) && s[k..][..|r|] == r && AllSpace(s[k..][|r|..])
  {
    var k := LeadingSpace(s);
    var t := s[k..];
    var m := TrailingSpace(t);
    var r := t[..|t| - m];
    assert r == [] || !IsJsWhitespace(r[0]) by {
      if r != [] { assert r[0] == t[0]; }
    }
    assert s[k..][|r|..] == t[|t| - m..];
    r
  }

  /** Padding a string that has no whitespace at its ends is undone by Trim. */
  lemma {:induction false} TrimPadded(front: string, core: string, back: string)
    requires AllSpace(front) && AllSpace(back)
    requires core == [] || (!IsJsWhitespace(core[0]) && !IsJsWhitespace(core[|core| - 1]))
    ensures Trim(front + core + back) == core
  {
    var s := front + core + back;
    if core == [] {
      assert AllSpace(s);
    } else {
      LeadingOfPadded(front, core + back);
      assert s == front + (core + back);
      var t := s[LeadingSpace(s)..];
      assert t == core + back;
      TrailingOfPadded(core, back);
    }
  }

  lemma {:induction false} LeadingOfPadded(front: string, rest: string)
    requires AllSpace(front)
    requires rest == [] || !IsJsWhitespace(rest[0])
    ensures LeadingSpace(front + rest) == |front|
  {
    if front != [] {
      assert (front + rest)[1..] == front[1..] + rest;
      LeadingOfPadded(front[1..], rest);
    }
  }

  lemma {:induction false} TrailingOfPadded(core: string, back: string)
    requires AllSpace(back)
    requires core == [] || !IsJsWhitespace(core[|core| - 1])
    ensures TrailingSpace(core + back) == |back|
  {
    if back != [] {
      assert (core + back)[..|core + back| - 1] == core + back[..|back| - 1];
      TrailingOfPadded(core, back[..|back| - 1]);
    }
  }

  /** Trimming twice is trimming once. */
  lemma TrimIdempotent(s: string)
    ensures Trim(Trim(s)) == Trim(s)
  {
    TrimPadded([], Trim(s), []);
    assert [] + Trim(s) + [] == Trim(s);
  }

  /** A whitespace-only message trims to the empty string, and only such a message does. */
  lemma TrimEmpty(s: string)
    ensures Trim(s) == [] <==> AllSpace(s)
  {
    if AllSpace(s) {
      TrimPadded(s, [], []);
      assert s + [] + [] == s;
    }
  }

  /** String.prototype.toLowerCase on one character: 'A'..'Z' and the KELVIN SIGN, which lower-cases to 'k'. */
  function LowerChar(c: char): char {
    if 'A' <= c <= 'Z' then (c as int + 32) as char
    else if c == '\U{212A}' then 'k'
    else c
  }

  function Lower(s: string): (r: string)
    ensures |r| == |s|
    ensures forall i | 0 <= i < |s| :: r[i] == LowerChar(s[i])
  {
    if s == [] then [] else [LowerChar(s[0])] + Lower(s[1..])
  }

  lemma LowerCharIdempotent(c: char)
    ensures LowerChar(LowerChar(c)) == LowerChar(c)
    ensures !('A' <= LowerChar(c) <= 'Z')
  {
  }

  /** Lower-casing never turns a character into whitespace. */
  lemma LowerCharKeepsNonSpace(c: char)
    requires !IsJsWhitespace(c)
    ensures !IsJsWhitespace(LowerChar(c))
  {
  }

  /** Lower-casing a trimmed text leaves it trimmed. */
  lemma TrimLowered(t: string)
    requires t == [] || (!IsJsWhitespace(t[0]) && !IsJsWhitespace(t[|t| - 1]))
    ensures var n := Lower(t); n == [] || (!IsJsWhitespace(n[0]) && !IsJsWhitespace(n[|n| - 1]))
    ensures Trim(Lower(t)) == Lower(t)
  {
    var n := Lower(t);
    if n != [] {
      LowerCharKeepsNonSpace(t[0]);
      LowerCharKeepsNonSpace(t[|t| - 1]);
    }
    TrimPadded([], n, []);
    assert [] + n + [] == n;
  }

  /** Lower-casing is idempotent and leaves no ASCII capital behind. */
  lemma {:induction false} LowerIdempotent(s: string)
    ensures Lower(Lower(s)) == Lower(s)
    ensures forall i | 0 <= i < |s| :: !('A' <= Lower(s)[i] <= 'Z')
  {
    forall i | 0 <= i < |s|
      ensures Lower(Lower(s))[i] == Lower(s)[i] && !('A' <= Lower(s)[i] <= 'Z')
    {
      LowerCharIdempotent(s[i]);
    }
  }

  /** Concatenation regroups; kept as its own lemma so that proofs about costly functions of a string need not re-derive it. */
  lemma AppendAssoc(a: string, b: string, c: string)
    ensures a + b + c == a + (b + c)
  {
  }

  /** String.prototype.startsWith. */
  predicate StartsWith(s: string, prefix: string) {
    |prefix| <= |s| && s[..|prefix|] == prefix
  }

  /** Any text followed by anything starts with that text. */
  lemma StartsWithAppend(p: string, x: string)
    ensures StartsWith(p + x, p)
  {
    assert (p + x)[..|p|] == p;
  }

  /** A text starting with a longer prefix starts with its front part. */
  lemma StartsWithShorter(s: string, p: string, q: string)
    requires StartsWith(s, p + q)
    ensures StartsWith(s, p)
  {
    assert s[..|p|] == (p + q)[..|p|];
  }

  /** A text starting with a non-empty prefix has the prefix's first character. */
  lemma StartsWithFirst(s: string, prefix: string)
    requires prefix != [] && StartsWith(s, prefix)
    ensures s[0] == prefix[0]
  {
    assert s[..|prefix|][0] == s[0];
  }

  /** String.prototype.split(sep) for a one-character separator: the pieces between separators. */
  function Split(s: string, sep: char): (parts: seq<string>)
    ensures |parts| >= 1
    ensures forall i | 0 <= i < |parts| :: sep !in parts[i]
  {
    if s == [] then [""]
    else
      var rest := Split(s[1..], sep);
      assert s == [s[0]] + s[1..];
      if s[0] == sep then [""] + rest
      else [[s[0]] + rest[0]] + rest[1..]
  }

  /** Array.prototype.join(sep): the inverse of Split. */
  function Join(parts: seq<string>, sep: char): string
    requires |parts| >= 1
  {
    if |parts| == 1 then parts[0] else parts[0] + [sep] + Join(parts[1..], sep)
  }

  lemma {:induction false} JoinConsChar(c: char, first: string, tail: seq<string>, sep: char)
    ensures Join([[c] + first] + tail, sep) == [c] + Join([first] + tail, sep)
  {
    var a := [[c] + first] + tail;
    var b := [first] + tail;
    if tail != [] {
      assert a[1..] == tail && b[1..] == tail;
    }
  }

  /** Joining the pieces of a split gives back the string. */
  lemma {:induction false} JoinSplit(s: string, sep: char)
    ensures Join(Split(s, sep), sep) == s
  {
    if s != [] {
      var rest := Split(s[1..], sep);
      JoinSplit(s[1..], sep);
      if s[0] == sep {
        assert ([""] + rest)[1..] == rest;
      } else {
        JoinConsChar(s[0], rest[0], rest[1..], sep);
        assert [rest[0]] + rest[1..] == rest;
      }
    }
  }

  lemma {:induction false} SplitNoSeparator(a: string, sep: char)
    requires sep !in a
    ensures Split(a, sep) == [a]
  {
    if a != [] {
      SplitNoSeparator(a[1..], sep);
      assert [a[0]] + a[1..] == a;
    }
  }

  /** A separator ends the first piece. */
  lemma {:induction false} SplitAfterWord(a: string, b: string, sep: char)
    requires sep !in a
    ensures Split(a + [sep] + b, sep) == [a] + Split(b, sep)
  {
    var s := a + [sep] + b;
    if a == [] {
      assert s[1..] == b;
    } else {
      assert s[1..] == a[1..] + [sep] + b;
      SplitAfterWord(a[1..], b, sep);
      assert [a[0]] + a[1..] == a;
    }
  }

  /** Splitting joined pieces that hold no separator gives back the pieces. */
  lemma {:induction false} SplitJoin(parts: seq<string>, sep: char)
    requires |parts| >= 1
    requires forall i | 0 <= i < |parts| :: sep !in parts[i]
    ensures Split(Join(parts, sep), sep) == parts
  {
    if |parts| == 1 {
      SplitNoSeparator(parts[0], sep);
    } else {
      SplitJoin(parts[1..], sep);
      SplitAfterWord(parts[0], Join(parts[1..], sep), sep);
    }
  }
}
