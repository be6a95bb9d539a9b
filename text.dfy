/** String operations the pages and the backend rely on: the whitespace
    class `\s` of JavaScript regular expressions, Unicode lower-casing
    (`toLowerCase()` in JavaScript, `str.lower()` in Python), replacement of
    whitespace runs, prefix and substring tests. */
module Text {
  import opened Collections

  /** Characters matched by `\s` in a JavaScript regular expression (the
      WhiteSpace and LineTerminator sets of ECMAScript); `parseInt` skips the
      same characters at the start of its argument. */
  predicate IsJsSpace(c: char) {
    c == ' ' || c == '\t' || c == '\n' || c == '\r' || c == '\U{B}' || c == '\U{C}'
    || c == '\U{A0}' || c == '\U{1680}' || ('\U{2000}' <= c <= '\U{200A}')
    || c == '\U{2028}' || c == '\U{2029}' || c == '\U{202F}' || c == '\U{205F}'
    || c == '\U{3000}' || c == '\U{FEFF}'
  }

  /** Latin Extended-A capitals that sit at an even code point, their small letter just after. */
  predicate IsUpperAtEven(c: char) {
    var n := c as int;
    n % 2 == 0 && ((0x100 <= n <= 0x12E) || (0x132 <= n <= 0x136) || (0x14A <= n <= 0x176))
  }

  /** Latin Extended-A capitals that sit at an odd code point, their small letter just after. */
  predicate IsUpperAtOdd(c: char) {
    var n := c as int;
    n % 2 == 1 && ((0x139 <= n <= 0x147) || (0x179 <= n <= 0x17D))
  }

  /** The lower-case mapping of one character, for Basic Latin, Latin-1 and
      Latin Extended-A (which hold every Turkish letter). The dotted capital I
      (U+0130) lower-cases to two characters, `i` followed by a combining dot
      above, as in both JavaScript and Python. */
  function LowerChar(c: char): string {
    if 'A' <= c <= 'Z' || ('\U{C0}' <= c <= '\U{DE}' && c != '\U{D7}') then [(c as int + 32) as char]
    else if IsUpperAtEven(c) || IsUpperAtOdd(c) then [(c as int + 1) as char]
    else if c == '\U{178}' then ['\U{FF}']
    else if c == '\U{130}' then ['i', '\U{307}']
    else [c]
  }

  /** A character that lower-casing leaves as it is. */
  predicate IsLowerFixed(c: char) {
    LowerChar(c) == [c]
  }

  /** Lower-cases a string character by character. */
  function Lower(s: string): string {
    if s == [] then [] else LowerChar(s[0]) + Lower(s[1..])
  }

  /** Every character lower-casing produces is itself left alone by lower-casing. */
  lemma LowerCharIsFixed(c: char)
    ensures forall k :: 0 <= k < |LowerChar(c)| ==> IsLowerFixed(LowerChar(c)[k])
  {
  }

  /** Lower-casing distributes over concatenation. */
  lemma {:induction false} LowerAppend(a: string, b: string)
    ensures Lower(a + b) == Lower(a) + Lower(b)
  {
    if a == [] {
      assert a + b == b;
    } else {
      assert (a + b)[0] == a[0] && (a + b)[1..] == a[1..] + b;
      LowerAppend(a[1..], b);
    }
  }

  /** Lower-casing yields only characters that lower-casing leaves alone. */
  lemma {:induction false} LowerYieldsFixed(s: string)
    ensures forall k :: 0 <= k < |Lower(s)| ==> IsLowerFixed(Lower(s)[k])
  {
    if s != [] {
      LowerCharIsFixed(s[0]);
      LowerYieldsFixed(s[1..]);
      var h, t := LowerChar(s[0]), Lower(s[1..]);
      assert Lower(s) == h + t;
      forall k | 0 <= k < |h + t| ensures IsLowerFixed((h + t)[k]) {
        if k >= |h| { assert (h + t)[k] == t[k - |h|]; }
      }
    }
  }

  /** A string made only of characters lower-casing leaves alone is its own lower case. */
  lemma {:induction false} LowerOfFixed(s: string)
    requires forall k :: 0 <= k < |s| ==> IsLowerFixed(s[k])
    ensures Lower(s) == s
  {
    if s != [] {
      LowerOfFixed(s[1..]);
      assert s == [s[0]] + s[1..];
    }
  }

  /** Lower-casing twice is lower-casing once. */
  lemma LowerIdempotent(s: string)
    ensures Lower(Lower(s)) == Lower(s)
  {
    LowerYieldsFixed(s);
    LowerOfFixed(Lower(s));
  }

  /** Whitespace is never produced from, and never turned into, anything else by lower-casing. */
  lemma LowerCharSpaces(c: char)
    ensures IsJsSpace(c) ==> LowerChar(c) == [c]
    ensures !IsJsSpace(c) ==> forall k :: 0 <= k < |LowerChar(c)| ==> !IsJsSpace(LowerChar(c)[k])
  {
  }

  /** `s` without its leading whitespace. */
  function TrimStart(s: string): (r: string)
    ensures |r| <= |s| && r == s[|s| - |r|..]
    ensures r == [] || !IsJsSpace(r[0])
    ensures forall k :: 0 <= k < |s| - |r| ==> IsJsSpace(s[k])
  {
    if s != [] && IsJsSpace(s[0]) then TrimStart(s[1..]) else s
  }

  /** Replaces every maximal run of whitespace in `s` by `repl`: JavaScript
      `s.replace(/\s+/g, repl)`. */
  function ReplaceSpaceRuns(s: string, repl: string): string
    decreases |s|
  {
    if s == [] then []
    else if IsJsSpace(s[0]) then repl + ReplaceSpaceRuns(TrimStart(s[1..]), repl)
    else [s[0]] + ReplaceSpaceRuns(s[1..], repl)
  }

  /** Each character of the replacement result is a non-whitespace character of
      the input or a character of the replacement text. */
  lemma {:induction false} ReplaceSpaceRunsChars(s: string, repl: string)
    ensures forall k :: 0 <= k < |ReplaceSpaceRuns(s, repl)| ==>
      var c := ReplaceSpaceRuns(s, repl)[k]; (c in s && !IsJsSpace(c)) || c in repl
    decreases |s|
  {
    if s != [] {
      var r := ReplaceSpaceRuns(s, repl);
      if IsJsSpace(s[0]) {
        var t := TrimStart(s[1..]);
        ReplaceSpaceRunsChars(t, repl);
        var rest := ReplaceSpaceRuns(t, repl);
        assert r == repl + rest;
        forall k | 0 <= k < |r| ensures (r[k] in s && !IsJsSpace(r[k])) || r[k] in repl {
          if k >= |repl| {
            assert r[k] == rest[k - |repl|];
            assert forall c :: c in t ==> c in s;
          }
        }
      } else {
        ReplaceSpaceRunsChars(s[1..], repl);
        var rest := ReplaceSpaceRuns(s[1..], repl);
        assert r == [s[0]] + rest;
        forall k | 0 <= k < |r| ensures (r[k] in s && !IsJsSpace(r[k])) || r[k] in repl {
          if k >= 1 { assert r[k] == rest[k - 1]; }
        }
      }
    }
  }

  /** A string without whitespace is left as it is. */
  lemma {:induction false} ReplaceSpaceRunsNoSpace(s: string, repl: string)
    requires forall k :: 0 <= k < |s| ==> !IsJsSpace(s[k])
    ensures ReplaceSpaceRuns(s, repl) == s
  {
    if s != [] {
      ReplaceSpaceRunsNoSpace(s[1..], repl);
      assert s == [s[0]] + s[1..];
    }
  }

  /** With an empty replacement, every whitespace character is removed and
      nothing else is: the result is the input filtered to its non-whitespace characters. */
  lemma {:induction false} RemoveSpacesKeepsOthers(s: string)
    ensures ReplaceSpaceRuns(s, "") == Filter(s, NotSpace)
    decreases |s|
  {
    if s != [] {
      if IsJsSpace(s[0]) {
        var t := TrimStart(s[1..]);
        RemoveSpacesKeepsOthers(t);
        SkipSpaces(s[1..], |s[1..]| - |t|);
      } else {
        RemoveSpacesKeepsOthers(s[1..]);
      }
    }
  }

  /** Not a whitespace character. */
  predicate NotSpace(c: char) {
    !IsJsSpace(c)
  }

  /** Dropping a leading run of whitespace does not change the non-whitespace characters. */
  lemma {:induction false} SkipSpaces(s: string, n: nat)
    requires n <= |s| && forall k :: 0 <= k < n ==> IsJsSpace(s[k])
    ensures Filter(s[n..], NotSpace) == Filter(s, NotSpace)
  {
    if n > 0 {
      SkipSpaces(s[1..], n - 1);
      assert s[1..][n - 1..] == s[n..];
    }
  }

  /** `prefix` is a prefix of `s`. */
  predicate StartsWith(s: string, prefix: string) {
    |prefix| <= |s| && s[..|prefix|] == prefix
  }

  /** `sub` occurs in `s` (JavaScript `s.includes(sub)`). */
  predicate Contains(s: string, sub: string)
    decreases |s|
  {
    StartsWith(s, sub) || (s != [] && Contains(s[1..], sub))
  }

  /** `sub` occurs in `s` starting at position `i`. */
  predicate OccursAt(s: string, sub: string, i: int) {
    0 <= i <= |s| - |sub| && s[i..i + |sub|] == sub
  }

  /** `Contains` holds exactly when `sub` occurs at some position of `s`. */
  lemma {:induction false} ContainsAt(s: string, sub: string)
    ensures Contains(s, sub) <==> exists i :: OccursAt(s, sub, i)
    decreases |s|
  {
    if StartsWith(s, sub) {
      assert OccursAt(s, sub, 0);
    }
    if s != [] {
      ContainsAt(s[1..], sub);
      if Contains(s[1..], sub) {
        var i :| OccursAt(s[1..], sub, i);
        assert s[i + 1..i + 1 + |sub|] == s[1..][i..i + |sub|];
        assert OccursAt(s, sub, i + 1);
      }
      if exists i :: OccursAt(s, sub, i) {
        var i :| OccursAt(s, sub, i);
        if i > 0 {
          assert s[1..][i - 1..i - 1 + |sub|] == s[i..i + |sub|];
          assert OccursAt(s[1..], sub, i - 1);
        }
      }
    } else {
      if exists i :: OccursAt(s, sub, i) {
        var i :| OccursAt(s, sub, i);
        assert i == 0 && sub == [];
      }
    }
  }
}
