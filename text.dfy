/**
  The JavaScript string operations the forms rely on, over `seq<char>`:
  `trim`, `includes`, `startsWith`, `toLowerCase` / `toUpperCase` and the
  "text up to the next '|'" step of the notes parser.
*/
module Text {
  import opened Basics

  /** White space and line terminators as JavaScript's `trim` and the regular-expression class `\s` see them. */
  predicate IsSpace(c: char)
  {
    || c == ' ' || c == '\t' || c == '\n' || c == '\r'
    || c == '\U{000B}' || c == '\U{000C}' || c == '\U{00A0}' || c == '\U{FEFF}'
    || c == '\U{1680}' || ('\U{2000}' <= c <= '\U{200A}')
    || c == '\U{2028}' || c == '\U{2029}' || c == '\U{202F}' || c == '\U{205F}' || c == '\U{3000}'
  }

  predicate AllSpace(s: string)
  {
    forall i :: 0 <= i < |s| ==> IsSpace(s[i])
  }

  /** `trimStart`: drops the leading white space and nothing else. */
  function TrimStart(s: string): (r: string)
    ensures |r| <= |s|
    ensures r == [] || !IsSpace(r[0])
  {
    if s != [] && IsSpace(s[0]) then TrimStart(s[1..]) else s
  }

  /** What `trimStart` drops is white space, and what it keeps is the rest of the text. */
  lemma {:induction false} TrimStartIsSuffix(s: string)
    ensures TrimStart(s) == s[|s| - |TrimStart(s)|..]
    ensures AllSpace(s[..|s| - |TrimStart(s)|])
  {
    if s != [] && IsSpace(s[0]) {
      TrimStartIsSuffix(s[1..]);
      assert s[1..][|s| - 1 - |TrimStart(s)|..] == s[|s| - |TrimStart(s)|..];
      assert s[..|s| - |TrimStart(s)|] == [s[0]] + s[1..][..|s| - 1 - |TrimStart(s)|];
    }
  }

  /** `trimEnd`: drops the trailing white space and nothing else. */
  function TrimEnd(s: string): (r: string)
    ensures |r| <= |s| && r == s[..|r|]
    ensures AllSpace(s[|r|..])
    ensures r == [] || !IsSpace(r[|r| - 1])
  {
    if s != [] && IsSpace(s[|s| - 1]) then TrimEnd(s[..|s| - 1]) else s
  }

  /** `trim`: the text between the leading and the trailing white space. */
  function Trim(s: string): (r: string)
    ensures |r| <= |s|
    ensures r == [] || (!IsSpace(r[0]) && !IsSpace(r[|r| - 1]))
  {
    TrimEnd(TrimStart(s))
  }

  /** Blank in the sense of `!s.trim()`. */
  predicate IsBlank(s: string)
  {
    Trim(s) == []
  }

  lemma {:induction false} TrimStartOfPadded(w: string, p: string)
    requires AllSpace(w) && (p == [] || !IsSpace(p[0]))
    ensures TrimStart(w + p) == p
  {
    if w != [] {
      assert (w + p)[1..] == w[1..] + p;
      TrimStartOfPadded(w[1..], p);
    } else {
      assert w + p == p;
    }
  }

  lemma {:induction false} TrimEndOfPadded(p: string, w: string)
    requires AllSpace(w) && (p == [] || !IsSpace(p[|p| - 1]))
    ensures TrimEnd(p + w) == p
    decreases |w|
  {
    if w != [] {
      assert (p + w)[..|p + w| - 1] == p + w[..|w| - 1];
      TrimEndOfPadded(p, w[..|w| - 1]);
    } else {
      assert p + w == p;
    }
  }

  /** Surrounding an already trimmed text with white space is undone by `trim`. */
  lemma {:induction false} TrimOfPadded(w1: string, p: string, w2: string)
    requires AllSpace(w1) && AllSpace(w2) && Trim(p) == p
    ensures Trim(w1 + p + w2) == p
  {
    if p == [] {
      assert w1 + p + w2 == w1 + w2;
      assert AllSpace(w1 + w2);
      TrimStartOfPadded(w1 + w2, []);
      assert w1 + w2 + [] == w1 + w2;
      assert TrimStart(w1 + p + w2) == [];
    } else {
      assert !IsSpace(p[0]) && !IsSpace(p[|p| - 1]);
      assert w1 + p + w2 == w1 + (p + w2);
      assert (p + w2)[0] == p[0];
      TrimStartOfPadded(w1, p + w2);
      TrimEndOfPadded(p, w2);
      calc {
        Trim(w1 + p + w2);
        TrimEnd(TrimStart(w1 + (p + w2)));
        TrimEnd(p + w2);
        p;
      }
    }
  }

  /** A single leading blank in front of an already trimmed text is undone by `trim`. */
  lemma {:induction false} TrimAfterSpace(p: string)
    requires Trim(p) == p
    ensures Trim(" " + p) == p
  {
    var t := TrimStart(p);
    TrimStartIsSuffix(p);
    assert |TrimEnd(t)| <= |t| <= |p|;
    assert t == p[|p| - |t|..] == p[0..] == p;
    var s := " " + p;
    assert s != [] && IsSpace(s[0]) && s[1..] == p;
    assert TrimStart(s) == TrimStart(p);
  }

  /** `s.startsWith(p)` */
  predicate StartsWith(s: string, p: string)
  {
    |p| <= |s| && s[..|p|] == p
  }

  /** `s.includes(sub)`: some position of `s` starts an occurrence of `sub`. */
  predicate Contains(s: string, sub: string)
  {
    exists i :: 0 <= i <= |s| && StartsWith(s[i..], sub)
  }

  /** The text of `s` before its first '|' (all of `s` when it has none). */
  function UpToBar(s: string): (r: string)
    ensures StartsWith(s, r) && '|' !in r
    ensures |r| < |s| ==> s[|r|] == '|'
  {
    if s == [] || s[0] == '|' then [] else [s[0]] + UpToBar(s[1..])
  }

  function LowerChar(c: char): char
  {
    if 'A' <= c <= 'Z' then (c as int + 32) as char else c
  }

  function UpperChar(c: char): char
  {
    if 'a' <= c <= 'z' then (c as int - 32) as char else c
  }

  /** `toLowerCase` on the ASCII letters. */
  function ToLower(s: string): (r: string)
    ensures |r| == |s| && forall i :: 0 <= i < |s| ==> r[i] == LowerChar(s[i])
  {
    seq(|s|, i requires 0 <= i < |s| => LowerChar(s[i]))
  }

  /** `toUpperCase` on the ASCII letters. */
  function ToUpper(s: string): (r: string)
    ensures |r| == |s| && forall i :: 0 <= i < |s| ==> r[i] == UpperChar(s[i])
  {
    seq(|s|, i requires 0 <= i < |s| => UpperChar(s[i]))
  }

  /** Case-insensitive `includes`, as `a.toLowerCase().includes(b.toLowerCase())`. */
  predicate ContainsIgnoringCase(s: string, sub: string)
  {
    Contains(ToLower(s), ToLower(sub))
  }

  lemma EmptyIsContained(s: string)
    ensures Contains(s, [])
  {
    assert StartsWith(s[0..], []);
  }

  /** The text after the last occurrence of `sep` (all of `s` when it has none): `s.split(sep).pop()`. */
  function AfterLast(s: string, sep: char): (r: string)
    ensures |r| <= |s| && r == s[|s| - |r|..] && sep !in r
    ensures |r| < |s| ==> s[|s| - |r| - 1] == sep
  {
    if s == [] then []
    else if s[|s| - 1] == sep then []
    else AfterLast(s[..|s| - 1], sep) + [s[|s| - 1]]
  }

  /** `s || null`: the empty string stands for a missing value. */
  function NullIfEmpty(s: string): (r: Option<string>)
    ensures r.None? <==> s == []
    ensures r.Some? ==> r.value == s
  {
    if s == [] then None else Some(s)
  }
}
