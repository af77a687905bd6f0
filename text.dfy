/** The JavaScript string operations the import parsers and the history export use:
    `trim`, `split` (on a character class and on a separator string), `includes`,
    `toLowerCase`, `join`, digit extraction for `parseInt`, and number-to-text. */
module Text {
  import opened Seqs

  /** The ECMAScript WhiteSpace and LineTerminator code points, which `trim` removes. */
  predicate IsWhitespace(c: char)
  {
    || c == '\t' || c == '\n' || c == '\U{000B}' || c == '\U{000C}' || c == '\r' || c == ' '
    || c == '\U{00A0}' || c == '\U{1680}' || ('\U{2000}' <= c <= '\U{200A}')
    || c == '\U{2028}' || c == '\U{2029}' || c == '\U{202F}' || c == '\U{205F}'
    || c == '\U{3000}' || c == '\U{FEFF}'
  }

  /** `trimStart`: the suffix left after dropping leading whitespace. */
  function TrimStart(s: string): (r: string)
    ensures |r| <= |s| && r == s[|s| - |r|..]
    ensures forall k :: 0 <= k < |s| - |r| ==> IsWhitespace(s[k])
    ensures r == [] || !IsWhitespace(r[0])
  {
    if s != [] && IsWhitespace(s[0]) then TrimStart(s[1..]) else s
  }

  /** `trimEnd`: the prefix left after dropping trailing whitespace. */
  function TrimEnd(s: string): (r: string)
    ensures |r| <= |s| && r == s[..|r|]
    ensures forall k :: |r| <= k < |s| ==> IsWhitespace(s[k])
    ensures r == [] || !IsWhitespace(r[|r| - 1])
  {
    if s != [] && IsWhitespace(s[|s| - 1]) then TrimEnd(s[..|s| - 1]) else s
  }

  /** `String.prototype.trim`. */
  function Trim(s: string): (r: string)
    ensures r == [] || (!IsWhitespace(r[0]) && !IsWhitespace(r[|r| - 1]))
    ensures |r| <= |s|
  {
    TrimEnd(TrimStart(s))
  }

  /** A string trims to nothing exactly when it is all whitespace. */
  lemma TrimEmptyIff(s: string)
    ensures Trim(s) == [] <==> forall k :: 0 <= k < |s| ==> IsWhitespace(s[k])
  {
    var t := TrimStart(s);
    if Trim(s) == [] {
      forall k | 0 <= k < |s| ensures IsWhitespace(s[k]) {
        if k >= |s| - |t| {
          assert s[k] == t[k - (|s| - |t|)];
        }
      }
    } else {
      var r := Trim(s);
      assert r[0] == t[0] == s[|s| - |t|];
    }
  }

  /** Trimming a string without surrounding whitespace leaves it as it is. */
  lemma TrimUntouched(s: string)
    requires s == [] || (!IsWhitespace(s[0]) && !IsWhitespace(s[|s| - 1]))
    ensures Trim(s) == s
  {
  }

  /** Leading whitespace before a string that starts with another character is dropped. */
  lemma TrimStartPadding(pre: string, s: string)
    requires forall k :: 0 <= k < |pre| ==> IsWhitespace(pre[k])
    requires s != [] && !IsWhitespace(s[0])
    ensures TrimStart(pre + s) == s
  {
    var t := TrimStart(pre + s);
    assert |t| == |s| by {
      assert (pre + s)[|pre|] == s[0];
    }
  }

  /** Trailing whitespace after a string that ends with another character is dropped. */
  lemma TrimEndPadding(s: string, post: string)
    requires forall k :: 0 <= k < |post| ==> IsWhitespace(post[k])
    requires s != [] && !IsWhitespace(s[|s| - 1])
    ensures TrimEnd(s + post) == s
  {
    var r := TrimEnd(s + post);
    assert |r| == |s| by {
      assert (s + post)[|s| - 1] == s[|s| - 1];
    }
  }

  /** Whitespace added at either end is trimmed away. */
  lemma TrimPadding(pre: string, s: string, post: string)
    requires forall k :: 0 <= k < |pre| ==> IsWhitespace(pre[k])
    requires forall k :: 0 <= k < |post| ==> IsWhitespace(post[k])
    requires s == [] || (!IsWhitespace(s[0]) && !IsWhitespace(s[|s| - 1]))
    ensures Trim(pre + s + post) == s
  {
    if s == [] {
      TrimEmptyIff(pre + s + post);
    } else {
      assert pre + s + post == pre + (s + post);
      TrimStartPadding(pre, s + post);
      TrimEndPadding(s, post);
    }
  }

  /** Trimming twice is trimming once. */
  lemma TrimIdempotent(s: string)
    ensures Trim(Trim(s)) == Trim(s)
  {
    TrimUntouched(Trim(s));
  }

  // ---------------------------------------------------------------------------
  // split on a character class, as `line.split(/[\t,-]/)`

  /** The position of the first character of `s` in `delims`, or `|s|` when there is none. */
  function IndexOfAny(s: string, delims: set<char>): (i: nat)
    ensures i <= |s|
    ensures i < |s| ==> s[i] in delims
    ensures forall k :: 0 <= k < i ==> s[k] !in delims
  {
    if s == [] then 0
    else if s[0] in delims then 0
    else 1 + IndexOfAny(s[1..], delims)
  }

  /** `s.split(re)` for a regular expression that is a one-character class: the pieces
      between delimiter characters, empty pieces included. */
  function SplitOnAny(s: string, delims: set<char>): (parts: seq<string>)
    ensures |parts| >= 1
    ensures parts[0] == s[..IndexOfAny(s, delims)]
    ensures forall j, k :: 0 <= j < |parts| && 0 <= k < |parts[j]| ==> parts[j][k] !in delims
    ensures |parts| == 1 <==> forall k :: 0 <= k < |s| ==> s[k] !in delims
    decreases |s|
  {
    var i := IndexOfAny(s, delims);
    if i == |s| then [s]
    else
      var rest := SplitOnAny(s[i + 1..], delims);
      [s[..i]] + rest
  }

  // ---------------------------------------------------------------------------
  // split on a separator string, as `line.split(" - ")`

  /** `t` occurs in `s` starting at position `k`. */
  predicate OccursAt(s: string, t: string, k: int)
  {
    0 <= k && k + |t| <= |s| && s[k..k + |t|] == t
  }

  /** `s.includes(t)`. */
  predicate Contains(s: string, t: string)
  {
    exists k :: 0 <= k <= |s| - |t| && OccursAt(s, t, k)
  }

  lemma OccursAtTail(s: string, t: string, k: int)
    requires |s| > 0 && k >= 0
    ensures OccursAt(s[1..], t, k) <==> OccursAt(s, t, k + 1)
  {
    if 0 <= k && k + |t| <= |s| - 1 {
      assert s[1..][k..k + |t|] == s[k + 1..k + 1 + |t|];
    }
  }

  /** `s.indexOf(sep)`, with `|s|` standing for "not found". */
  function IndexOf(s: string, sep: string): (i: nat)
    requires |sep| > 0
    ensures i <= |s|
    ensures i < |s| ==> OccursAt(s, sep, i)
    ensures forall k :: 0 <= k < i ==> !OccursAt(s, sep, k)
  {
    if |s| < |sep| then |s|
    else if s[..|sep|] == sep then 0
    else
      var j := IndexOf(s[1..], sep);
      assert forall k :: 0 <= k < 1 + j ==> !OccursAt(s, sep, k) by {
        forall k | 0 <= k < 1 + j ensures !OccursAt(s, sep, k) {
          if k > 0 {
            OccursAtTail(s, sep, k - 1);
          }
        }
      }
      if j < |s| - 1 then
        OccursAtTail(s, sep, j);
        1 + j
      else
        1 + j
  }

  /** `s.split(sep)` for a non-empty separator string: the pieces between the occurrences
      found scanning left to right, empty pieces included. */
  function SplitOn(s: string, sep: string): (parts: seq<string>)
    requires |sep| > 0
    ensures |parts| >= 1
    ensures parts[0] == s[..IndexOf(s, sep)]
    ensures |parts| == 1 <==> !Contains(s, sep)
    decreases |s|
  {
    var i := IndexOf(s, sep);
    if i == |s| then [s]
    else
      assert OccursAt(s, sep, i);
      [s[..i]] + SplitOn(s[i + |sep|..], sep)
  }

  /** `parts.join(sep)`. */
  function Join(parts: seq<string>, sep: string): string
  {
    if |parts| == 0 then ""
    else if |parts| == 1 then parts[0]
    else parts[0] + sep + Join(parts[1..], sep)
  }

  lemma JoinCons(x: string, rest: seq<string>, sep: string)
    requires |rest| >= 1
    ensures Join([x] + rest, sep) == x + sep + Join(rest, sep)
  {
    assert ([x] + rest)[1..] == rest;
  }

  /** An occurrence of `sep` cuts `s` into the text before it, `sep` and the text after. */
  lemma SeparatorAt(s: string, sep: string, i: nat)
    requires OccursAt(s, sep, i)
    ensures s == s[..i] + sep + s[i + |sep|..]
  {
    assert s == s[..i] + s[i..i + |sep|] + s[i + |sep|..];
  }

  lemma SplitOnFound(s: string, sep: string, i: nat)
    requires |sep| > 0 && i == IndexOf(s, sep) && i < |s|
    ensures SplitOn(s, sep) == [s[..i]] + SplitOn(s[i + |sep|..], sep)
    ensures s == s[..i] + sep + s[i + |sep|..]
  {
    SeparatorAt(s, sep, i);
  }

  /** Splitting on a separator and joining with it gives back the input. */
  lemma {:induction false} JoinSplitOn(s: string, sep: string)
    requires |sep| > 0
    ensures Join(SplitOn(s, sep), sep) == s
    decreases |s|
  {
    var i := IndexOf(s, sep);
    if i < |s| {
      var tail := s[i + |sep|..];
      SplitOnFound(s, sep, i);
      JoinCons(s[..i], SplitOn(tail, sep), sep);
      JoinSplitOn(tail, sep);
    }
  }

  /** Each part of a joined list of strings occurs at some position of the join. */
  lemma {:induction false} JoinedPartIsInfix(parts: seq<string>, sep: string, p: string)
    requires p in parts
    ensures exists off :: 0 <= off <= |Join(parts, sep)| - |p| && OccursAt(Join(parts, sep), p, off)
  {
    if |parts| == 1 {
      assert OccursAt(Join(parts, sep), p, 0);
    } else if p == parts[0] {
      assert Join(parts, sep)[0..|p|] == p;
      assert OccursAt(Join(parts, sep), p, 0);
    } else {
      JoinedPartIsInfix(parts[1..], sep, p);
      var rest := Join(parts[1..], sep);
      var off :| 0 <= off <= |rest| - |p| && OccursAt(rest, p, off);
      var shift := |parts[0]| + |sep|;
      assert Join(parts, sep) == parts[0] + sep + rest;
      assert Join(parts, sep)[shift + off..shift + off + |p|] == rest[off..off + |p|];
      assert OccursAt(Join(parts, sep), p, shift + off);
    }
  }

  // ---------------------------------------------------------------------------
  // case, digits and numbers

  /** `toLowerCase` on one character, for the ASCII letters. */
  function ToLowerChar(c: char): (l: char)
  {
    if 'A' <= c <= 'Z' then (c as int + 32) as char else c
  }

  /** `toLowerCase`, restricted to the ASCII letters. */
  function ToLower(s: string): (r: string)
    ensures |r| == |s|
    ensures forall k :: 0 <= k < |s| ==> r[k] == ToLowerChar(s[k])
  {
    seq(|s|, k requires 0 <= k < |s| => ToLowerChar(s[k]))
  }

  predicate IsDigit(c: char)
  {
    '0' <= c <= '9'
  }

  /** `s.replace(/[^0-9]/g, "")`. */
  function DigitsOnly(s: string): (d: string)
    ensures forall k :: 0 <= k < |d| ==> IsDigit(d[k])
    ensures forall k :: 0 <= k < |s| && IsDigit(s[k]) ==> s[k] in d
  {
    Filter(s, IsDigit)
  }

  function DigitValue(c: char): (v: nat)
    requires IsDigit(c)
    ensures v <= 9
  {
    c as int - '0' as int
  }

  function DigitChar(v: nat): (c: char)
    requires v <= 9
    ensures IsDigit(c) && DigitValue(c) == v
  {
    ('0' as int + v) as char
  }

  /** The number a string of decimal digits denotes (`parseInt` of a digit string). */
  function DecimalValue(d: string): nat
    requires forall k :: 0 <= k < |d| ==> IsDigit(d[k])
  {
    if d == [] then 0 else 10 * DecimalValue(d[..|d| - 1]) + DigitValue(d[|d| - 1])
  }

  /** The decimal text of a natural number, as JavaScript prints an integer: no leading zero. */
  function NatToDecimal(n: nat): (d: string)
    ensures |d| >= 1
    ensures forall k :: 0 <= k < |d| ==> IsDigit(d[k])
    ensures d[0] == '0' ==> n == 0 && d == "0"
    ensures DecimalValue(d) == n
  {
    if n < 10 then [DigitChar(n)]
    else
      var prefix := NatToDecimal(n / 10);
      var d := prefix + [DigitChar(n % 10)];
      assert d[..|d| - 1] == prefix;
      d
  }

  /** Template-literal interpolation of an integer. */
  function IntToString(n: int): (s: string)
    ensures n >= 0 ==> s == NatToDecimal(n)
    ensures n < 0 ==> s == "-" + NatToDecimal(-n)
  {
    if n < 0 then "-" + NatToDecimal(-n) else NatToDecimal(n)
  }
}
