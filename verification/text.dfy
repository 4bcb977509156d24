/** The JavaScript string primitives the parsers are built from: `trim`,
    `split` on one character, `join`, `includes`, `startsWith`, `endsWith`,
    `toLowerCase` (restricted, see `LowerChar`) and the short-circuit `||`
    on strings. A string is a sequence of characters. */
module Text {

  type String = seq<char>

  /** ECMAScript WhiteSpace and LineTerminator code points: the set that
      `trim()`, the regular-expression class `\s` and `parseFloat` skip. */
  predicate IsWhitespace(c: char) {
    c == '\t' || c == '\n' || c == '\U{000B}' || c == '\U{000C}' || c == '\r' || c == ' '
    || c == '\U{00A0}' || c == '\U{1680}' || ('\U{2000}' <= c <= '\U{200A}')
    || c == '\U{2028}' || c == '\U{2029}' || c == '\U{202F}' || c == '\U{205F}'
    || c == '\U{3000}' || c == '\U{FEFF}'
  }

  /** The regular-expression class `\d` (no Unicode flag): ASCII digits only. */
  predicate IsDigit(c: char) {
    '0' <= c <= '9'
  }

  predicate IsUpperLatin(c: char) {
    'A' <= c <= 'Z'
  }

  /** `toLowerCase` on one character, for Latin A-Z and the Cyrillic capitals
      U+0400-U+042F. Every keyword the categorisers test is made of a-z,
      а-я and spaces. Outside this subset only U+212A KELVIN SIGN lower-cases
      to a single such letter, Latin `k`, which no keyword contains, and
      U+0130 lower-cases to `i` followed by the combining U+0307, which no
      keyword contains either; so this subset decides every keyword test
      exactly. */
  function LowerChar(c: char): (r: char)
    ensures IsUpperLatin(c) ==> r as int == c as int + 32
    ensures !IsUpperLatin(c) && !('\U{0400}' <= c <= '\U{042F}') ==> r == c
  {
    if IsUpperLatin(c) then (c as int + 32) as char
    else if '\U{0410}' <= c <= '\U{042F}' then (c as int + 0x20) as char
    else if '\U{0400}' <= c <= '\U{040F}' then (c as int + 0x50) as char
    else c
  }

  function ToLower(s: String): String {
    seq(|s|, i requires 0 <= i < |s| => LowerChar(s[i]))
  }

  /** `toUpperCase` on the ASCII letters a-z; every other character is kept.
      Used only where the text is compared with ASCII capitals. */
  function UpperAscii(c: char): (r: char)
    ensures 'a' <= c <= 'z' ==> IsUpperLatin(r) && r as int == c as int - 32
    ensures !('a' <= c <= 'z') ==> r == c
  {
    if 'a' <= c <= 'z' then (c as int - 32) as char else c
  }

  function ToUpperAscii(s: String): (r: String)
    ensures |r| == |s|
  {
    seq(|s|, i requires 0 <= i < |s| => UpperAscii(s[i]))
  }

  predicate StartsWith(s: String, prefix: String) {
    |prefix| <= |s| && s[..|prefix|] == prefix
  }

  predicate EndsWith(s: String, suffix: String) {
    |suffix| <= |s| && s[|s| - |suffix|..] == suffix
  }

  /** `s.includes(p)`: some position of `s` starts with `p`. */
  predicate Contains(s: String, p: String)
    decreases |s|
  {
    StartsWith(s, p) || (|s| > 0 && Contains(s[1..], p))
  }

  lemma {:induction false} ContainsAt(s: String, p: String, i: nat)
    requires i + |p| <= |s| && s[i..i + |p|] == p
    ensures Contains(s, p)
    decreases i
  {
    if i > 0 {
      assert s[1..][i - 1..i - 1 + |p|] == s[i..i + |p|];
      ContainsAt(s[1..], p, i - 1);
    }
  }

  /** JavaScript `a || b` on strings: the empty string is falsy. */
  function OrElse(a: String, b: String): (r: String)
    ensures r == a || r == b
    ensures r == "" <==> a == "" && b == ""
  {
    if a != "" then a else b
  }

  function TrimStart(s: String): (r: String)
    ensures |r| <= |s| && r == s[|s| - |r|..]
    ensures r == [] || !IsWhitespace(r[0])
  {
    if |s| > 0 && IsWhitespace(s[0]) then TrimStart(s[1..]) else s
  }

  function TrimEnd(s: String): (r: String)
    ensures |r| <= |s| && r == s[..|r|]
    ensures r == [] || !IsWhitespace(r[|r| - 1])
  {
    if |s| > 0 && IsWhitespace(s[|s| - 1]) then TrimEnd(s[..|s| - 1]) else s
  }

  /** `s.trim()`: a contiguous part of `s`, with only whitespace cut off at
      either end, and neither end whitespace. */
  function Trim(s: String): (r: String)
    ensures |r| <= |s|
    ensures r == [] || (!IsWhitespace(r[0]) && !IsWhitespace(r[|r| - 1]))
    ensures s == [] || (!IsWhitespace(s[0]) && !IsWhitespace(s[|s| - 1])) ==> r == s
  {
    TrimEnd(TrimStart(s))
  }

  /** Only whitespace is cut off at the start. */
  lemma {:induction false} TrimStartCutsBlank(s: String)
    ensures forall i :: 0 <= i < |s| - |TrimStart(s)| ==> IsWhitespace(s[i])
  {
    if |s| > 0 && IsWhitespace(s[0]) {
      TrimStartCutsBlank(s[1..]);
    }
  }

  /** Only whitespace is cut off at the end. */
  lemma {:induction false} TrimEndCutsBlank(s: String)
    ensures forall i :: |TrimEnd(s)| <= i < |s| ==> IsWhitespace(s[i])
  {
    if |s| > 0 && IsWhitespace(s[|s| - 1]) {
      TrimEndCutsBlank(s[..|s| - 1]);
    }
  }

  /** `TrimStart` drops exactly a leading run of `n` whitespace characters. */
  lemma {:induction false} TrimStartSkips(s: String, n: nat)
    requires n <= |s| && (forall i :: 0 <= i < n ==> IsWhitespace(s[i])) && (n < |s| ==> !IsWhitespace(s[n]))
    ensures TrimStart(s) == s[n..]
  {
    if n > 0 {
      TrimStartSkips(s[1..], n - 1);
      assert s[1..][n - 1..] == s[n..];
    }
  }

  /** A text that starts with a non-blank character keeps it when its end
      is trimmed. */
  lemma TrimEndKeepsHead(s: String)
    requires |s| > 0 && !IsWhitespace(s[0])
    ensures |TrimEnd(s)| > 0 && TrimEnd(s)[0] == s[0]
  {
    TrimEndCutsBlank(s);
  }

  /** The trimmed text is empty exactly when the text is all whitespace. */
  lemma {:induction false} TrimEmptyIffBlank(s: String)
    ensures Trim(s) == "" <==> forall i :: 0 <= i < |s| ==> IsWhitespace(s[i])
  {
    var t := TrimStart(s);
    if forall i :: 0 <= i < |s| ==> IsWhitespace(s[i]) {
      assert t == [];
    } else {
      TrimStartCutsBlank(s);
      var i :| 0 <= i < |s| && !IsWhitespace(s[i]);
      assert t != [];
      TrimEndCutsBlank(t);
      assert |TrimEnd(t)| > 0;
    }
  }

  /** `s.split(c)` for a one-character separator. */
  function Split(s: String, c: char): (parts: seq<String>)
    ensures |parts| >= 1
  {
    if |s| == 0 then [""]
    else
      var rest := Split(s[1..], c);
      if s[0] == c then [""] + rest else [[s[0]] + rest[0]] + rest[1..]
  }

  /** `parts.join(sep)`. */
  function Join(parts: seq<String>, sep: String): String {
    if |parts| == 0 then ""
    else if |parts| == 1 then parts[0]
    else parts[0] + sep + Join(parts[1..], sep)
  }

  /** A join starts with its first part. */
  lemma JoinStartsWith(parts: seq<String>, sep: String)
    requires |parts| > 0
    ensures StartsWith(Join(parts, sep), parts[0])
  {
    if |parts| > 1 {
      assert Join(parts, sep) == parts[0] + (sep + Join(parts[1..], sep));
    }
  }

  lemma JoinOfThree(a: String, b: String, c: String, sep: String)
    ensures Join([a, b, c], sep) == a + sep + b + sep + c
  {
    assert [a, b, c][1..] == [b, c] && [b, c][1..] == [c];
    assert Join([b, c], sep) == b + sep + c;
    assert a + sep + (b + sep + c) == a + sep + b + sep + c;
  }

  /** Joining the pieces of a split with the separator gives back the text. */
  lemma {:induction false} SplitJoin(s: String, c: char)
    ensures Join(Split(s, c), [c]) == s
  {
    if |s| > 0 {
      var rest := Split(s[1..], c);
      SplitJoin(s[1..], c);
      if s[0] == c {
        JoinAfterEmpty(rest, [c]);
      } else {
        JoinPrepend([s[0]], rest, [c]);
      }
      assert s == [s[0]] + s[1..];
    }
  }

  /** Text put in front of the first part comes first in the join. */
  lemma JoinPrepend(x: String, parts: seq<String>, sep: String)
    requires |parts| > 0
    ensures Join([x + parts[0]] + parts[1..], sep) == x + Join(parts, sep)
  {
    var q := [x + parts[0]] + parts[1..];
    assert q[1..] == parts[1..];
    if |parts| > 1 {
      assert x + parts[0] + sep + Join(parts[1..], sep) == x + (parts[0] + sep + Join(parts[1..], sep));
    }
  }

  /** An empty first part leaves just the separator in front. */
  lemma JoinAfterEmpty(parts: seq<String>, sep: String)
    requires |parts| > 0
    ensures Join([""] + parts, sep) == sep + Join(parts, sep)
  {
    assert ([""] + parts)[1..] == parts;
    assert "" + sep + Join(parts, sep) == sep + Join(parts, sep);
  }

  /** No piece of a split contains the separator. */
  lemma {:induction false} SplitPiecesFree(s: String, c: char)
    ensures forall k, j :: 0 <= k < |Split(s, c)| && 0 <= j < |Split(s, c)[k]| ==> Split(s, c)[k][j] != c
  {
    if |s| > 0 {
      SplitPiecesFree(s[1..], c);
    }
  }

  /** Text without the separator is a single piece. */
  lemma {:induction false} SplitNone(s: String, c: char)
    requires c !in s
    ensures Split(s, c) == [s]
  {
    if |s| > 0 {
      SplitNone(s[1..], c);
      assert [s[0]] + s[1..] == s;
    }
  }

  /** Text that starts with a separator-free piece and a separator splits
      into that piece followed by the pieces of the rest. */
  lemma {:induction false} SplitCons(a: String, c: char, b: String)
    requires c !in a
    ensures Split(a + [c] + b, c) == [a] + Split(b, c)
  {
    var s := a + [c] + b;
    if |a| == 0 {
      assert s[1..] == b;
    } else {
      assert s[1..] == a[1..] + [c] + b;
      SplitCons(a[1..], c, b);
      assert [a[0]] + a[1..] == a;
    }
  }

  /** A character in neither the pieces nor the separator is not in
      their join. */
  lemma {:induction false} JoinFree(parts: seq<String>, sep: String, c: char)
    requires c !in sep
    requires forall k :: 0 <= k < |parts| ==> c !in parts[k]
    ensures c !in Join(parts, sep)
  {
    if |parts| > 1 {
      JoinFree(parts[1..], sep, c);
    }
  }

  /** Splitting a join of separator-free pieces gives the pieces back. */
  lemma {:induction false} JoinSplit(parts: seq<String>, c: char)
    requires |parts| > 0
    requires forall k :: 0 <= k < |parts| ==> c !in parts[k]
    ensures Split(Join(parts, [c]), c) == parts
  {
    if |parts| == 1 {
      SplitNone(parts[0], c);
    } else {
      JoinSplit(parts[1..], c);
      SplitCons(parts[0], c, Join(parts[1..], [c]));
      assert [parts[0]] + parts[1..] == parts;
    }
  }

  /** `parts[i] || ''`: the i-th piece, or the empty string when absent. */
  function Field(parts: seq<String>, i: nat): (r: String)
    ensures i < |parts| ==> r == parts[i]
    ensures i >= |parts| ==> r == ""
  {
    if i < |parts| then parts[i] else ""
  }

  /** `s.substring(0, n)`. */
  function Take(s: String, n: nat): (r: String)
    ensures |r| == if n < |s| then n else |s|
    ensures r == s[..|r|]
  {
    if n < |s| then s[..n] else s
  }

  /** `s.replace(/\s/g, '')`: every character kept except whitespace, in order. */
  function RemoveWhitespace(s: String): (r: String)
    ensures |r| <= |s|
  {
    if |s| == 0 then ""
    else if IsWhitespace(s[0]) then RemoveWhitespace(s[1..])
    else [s[0]] + RemoveWhitespace(s[1..])
  }

  /** No whitespace is left, and text without whitespace is unchanged. */
  lemma {:induction false} RemoveWhitespaceShape(s: String)
    ensures forall i :: 0 <= i < |RemoveWhitespace(s)| ==> !IsWhitespace(RemoveWhitespace(s)[i])
    ensures (forall i :: 0 <= i < |s| ==> !IsWhitespace(s[i])) ==> RemoveWhitespace(s) == s
  {
    if |s| > 0 {
      RemoveWhitespaceShape(s[1..]);
      if !IsWhitespace(s[0]) {
        assert [s[0]] + s[1..] == s;
      }
    }
  }

  lemma {:induction false} RemoveWhitespaceAppend(a: String, b: String)
    ensures RemoveWhitespace(a + b) == RemoveWhitespace(a) + RemoveWhitespace(b)
  {
    if |a| > 0 {
      assert (a + b)[1..] == a[1..] + b;
      RemoveWhitespaceAppend(a[1..], b);
    } else {
      assert a + b == b;
    }
  }

  /** `s.replace(/c/g, '')` for one character. */
  function RemoveChar(s: String, c: char): (r: String)
    ensures |r| <= |s|
    ensures c !in r
    ensures c !in s ==> r == s
  {
    if |s| == 0 then ""
    else if s[0] == c then RemoveChar(s[1..], c)
    else [s[0]] + RemoveChar(s[1..], c)
  }

  lemma {:induction false} RemoveCharAppend(a: String, b: String, c: char)
    ensures RemoveChar(a + b, c) == RemoveChar(a, c) + RemoveChar(b, c)
  {
    if |a| > 0 {
      assert (a + b)[1..] == a[1..] + b;
      RemoveCharAppend(a[1..], b, c);
    } else {
      assert a + b == b;
    }
  }

  /** `s.replace(a, b)` with a one-character string pattern: only the first
      occurrence of `a` is replaced. */
  function ReplaceFirst(s: String, a: char, b: char): (r: String)
    ensures |r| == |s|
  {
    if |s| == 0 then ""
    else if s[0] == a then [b] + s[1..]
    else [s[0]] + ReplaceFirst(s[1..], a, b)
  }

  /** The character at `i` is replaced exactly when it is the first `a`. */
  lemma {:induction false} ReplaceFirstAt(s: String, a: char, b: char)
    ensures forall i :: 0 <= i < |s| ==>
      ReplaceFirst(s, a, b)[i] == if s[i] == a && a !in s[..i] then b else s[i]
  {
    if |s| > 0 {
      var r := ReplaceFirst(s, a, b);
      if s[0] == a {
        forall i | 1 <= i < |s| ensures a in s[..i] {
          assert s[..i][0] == a;
        }
      } else {
        ReplaceFirstAt(s[1..], a, b);
        forall i | 1 <= i < |s|
          ensures r[i] == if s[i] == a && a !in s[..i] then b else s[i]
        {
          ReplaceFirstShift(s, a, b, i);
        }
      }
    }
  }

  /** Past a first character that is not `a`, the replacement works on
      the rest of the text. */
  lemma ReplaceFirstShift(s: String, a: char, b: char, i: nat)
    requires 1 <= i < |s| && s[0] != a
    requires ReplaceFirst(s[1..], a, b)[i - 1]
             == if s[1..][i - 1] == a && a !in s[1..][..i - 1] then b else s[1..][i - 1]
    ensures ReplaceFirst(s, a, b)[i] == if s[i] == a && a !in s[..i] then b else s[i]
  {
    assert s[..i] == [s[0]] + s[1..][..i - 1];
    assert s[i] == s[1..][i - 1];
  }

  /** `s.split(p)[0]` for a non-empty pattern: the text before the first
      occurrence of `p`, or all of `s` when there is none. */
  function PrefixBefore(s: String, p: String): (r: String)
    requires |p| > 0
    ensures |r| <= |s| && r == s[..|r|]
  {
    if StartsWith(s, p) || |s| == 0 then ""
    else [s[0]] + PrefixBefore(s[1..], p)
  }

  /** The prefix stops at the first occurrence of `p`, or at the end. */
  lemma {:induction false} PrefixBeforeStops(s: String, p: String)
    requires |p| > 0
    ensures var r := PrefixBefore(s, p);
      (|r| == |s| || StartsWith(s[|r|..], p)) &&
      forall i :: 0 <= i < |r| ==> !StartsWith(s[i..], p)
  {
    if !(StartsWith(s, p) || |s| == 0) {
      PrefixBeforeStops(s[1..], p);
      var r := PrefixBefore(s, p);
      assert forall i :: 1 <= i <= |s| ==> s[i..] == s[1..][i - 1..];
    }
  }
}
