/** The handful of Python `str` operations the backends use to read tool
    output: `strip`, `split` on one separator character, `startswith`,
    `endswith`, `in`, `replace`, `lower`, `title` and `rstrip` of one character.
    Strings are sequences of characters; only ASCII case and the ASCII (plus
    U+0085 and U+00A0) whitespace characters are known here. */
module Text {

  /** The characters Python's `str.strip()` removes that this model knows. */
  predicate IsSpace(c: char) {
    var n := c as int;
    n == 32 || 9 <= n <= 13 || 28 <= n <= 31 || n == 0x85 || n == 0xA0
  }

  predicate StartsWith(s: string, prefix: string) {
    |prefix| <= |s| && s[..|prefix|] == prefix
  }

  predicate EndsWith(s: string, suffix: string) {
    |suffix| <= |s| && s[|s| - |suffix|..] == suffix
  }

  /** Python's `sub in s`. */
  predicate Contains(s: string, sub: string)
    decreases |s|
  {
    StartsWith(s, sub) || (s != [] && Contains(s[1..], sub))
  }

  lemma {:induction false} ContainsAt(s: string, sub: string, i: nat)
    requires i + |sub| <= |s| && s[i..i + |sub|] == sub
    ensures Contains(s, sub)
    decreases i
  {
    if i > 0 {
      assert s[1..][i - 1..i - 1 + |sub|] == s[i..i + |sub|];
      ContainsAt(s[1..], sub, i - 1);
    }
  }

  lemma {:induction false} ContainsWitness(s: string, sub: string) returns (i: nat)
    requires Contains(s, sub)
    ensures i + |sub| <= |s| && s[i..i + |sub|] == sub
    decreases |s|
  {
    if StartsWith(s, sub) {
      i := 0;
    } else {
      var j := ContainsWitness(s[1..], sub);
      i := j + 1;
      assert s[i..i + |sub|] == s[1..][j..j + |sub|];
    }
  }

  /** A one-character `sub` is contained exactly when the character occurs. */
  lemma {:induction false} ContainsChar(s: string, c: char)
    ensures Contains(s, [c]) <==> c in s
    decreases |s|
  {
    if s != [] {
      ContainsChar(s[1..], c);
      assert s == [s[0]] + s[1..];
    }
  }

  /** Python's `s.lstrip()`. */
  function LStrip(s: string): (r: string)
    ensures |r| <= |s| && r == s[|s| - |r|..]
    ensures r == [] || !IsSpace(r[0])
    decreases |s|
  {
    if s != [] && IsSpace(s[0]) then LStrip(s[1..]) else s
  }

  /** Python's `s.rstrip()`. */
  function RStrip(s: string): (r: string)
    ensures |r| <= |s| && r == s[..|r|]
    ensures r == [] || !IsSpace(r[|r| - 1])
    decreases |s|
  {
    if s != [] && IsSpace(s[|s| - 1]) then RStrip(s[..|s| - 1]) else s
  }

  /** The number of whitespace characters `s.lstrip()` removes. */
  function Leading(s: string): nat
  {
    |s| - |LStrip(s)|
  }

  /** Python's `s.strip()`: the slice of `s` that neither starts nor ends with
      whitespace, obtained by removing only whitespace from both ends. */
  function Strip(s: string): (r: string)
    ensures Leading(s) + |r| <= |s| && r == s[Leading(s)..Leading(s) + |r|]
    ensures r == [] || (!IsSpace(r[0]) && !IsSpace(r[|r| - 1]))
  {
    RStrip(LStrip(s))
  }

  /** `lstrip` removes only whitespace. */
  lemma {:induction false} LStripRemovesSpace(s: string)
    ensures forall k :: 0 <= k < Leading(s) ==> IsSpace(s[k])
    decreases |s|
  {
    if s != [] && IsSpace(s[0]) {
      LStripRemovesSpace(s[1..]);
      assert forall k :: 1 <= k < Leading(s) ==> s[k] == s[1..][k - 1];
    }
  }

  /** `rstrip` removes only whitespace. */
  lemma {:induction false} RStripRemovesSpace(s: string)
    ensures forall k :: |RStrip(s)| <= k < |s| ==> IsSpace(s[k])
    decreases |s|
  {
    if s != [] && IsSpace(s[|s| - 1]) {
      RStripRemovesSpace(s[..|s| - 1]);
    }
  }

  /** `strip` removes only whitespace, from both ends. */
  lemma StripRemovesSpace(s: string)
    ensures forall k :: 0 <= k < Leading(s) ==> IsSpace(s[k])
    ensures forall k :: Leading(s) + |Strip(s)| <= k < |s| ==> IsSpace(s[k])
  {
    var l := LStrip(s);
    LStripRemovesSpace(s);
    RStripRemovesSpace(l);
    assert forall k :: Leading(s) + |Strip(s)| <= k < |s| ==> s[k] == l[k - Leading(s)];
  }

  /** Stripping leaves a string that has no whitespace at either end alone. */
  lemma StripUnchanged(s: string)
    requires s == [] || (!IsSpace(s[0]) && !IsSpace(s[|s| - 1]))
    ensures Strip(s) == s
  {
  }

  /** Leading whitespace does not change what `strip` returns. */
  lemma StripSpaceFirst(c: char, s: string)
    requires IsSpace(c)
    ensures Strip([c] + s) == Strip(s)
  {
    assert ([c] + s)[1..] == s;
  }

  /** Python's `sep.join(parts)` for a one-character separator. */
  function Join(parts: seq<string>, sep: char): string
    decreases |parts|
  {
    if parts == [] then ""
    else if |parts| == 1 then parts[0]
    else parts[0] + [sep] + Join(parts[1..], sep)
  }

  /** Python's `s.split(sep)` for a one-character separator: never empty. */
  function Split(s: string, sep: char): (r: seq<string>)
    ensures |r| >= 1
    decreases |s|
  {
    if s == [] then [""]
    else if s[0] == sep then [""] + Split(s[1..], sep)
    else
      var rest := Split(s[1..], sep);
      [[s[0]] + rest[0]] + rest[1..]
  }

  /** No piece holds the separator. */
  lemma {:induction false} SplitPieces(s: string, sep: char)
    ensures forall k :: 0 <= k < |Split(s, sep)| ==> sep !in Split(s, sep)[k]
    decreases |s|
  {
    if s != [] {
      SplitPieces(s[1..], sep);
      var rest := Split(s[1..], sep);
      var r := Split(s, sep);
      if s[0] == sep {
        assert r[1..] == rest;
      } else {
        assert r[1..] == rest[1..];
        assert r[0] == [s[0]] + rest[0];
      }
    }
  }

  /** Joining the pieces gives `s` back. */
  lemma {:induction false} JoinSplit(s: string, sep: char)
    ensures Join(Split(s, sep), sep) == s
    decreases |s|
  {
    if s != [] {
      JoinSplit(s[1..], sep);
      var rest := Split(s[1..], sep);
      if s[0] == sep {
        assert s == [] + [sep] + s[1..];
        assert Split(s, sep)[1..] == rest;
      } else {
        var r := Split(s, sep);
        assert r[1..] == rest[1..];
        assert s == [s[0]] + s[1..];
        if |rest| > 1 {
          assert rest == [rest[0]] + rest[1..];
        }
      }
    }
  }

  lemma {:induction false} SplitNoSep(s: string, sep: char)
    requires sep !in s
    ensures Split(s, sep) == [s]
    decreases |s|
  {
    if s != [] {
      SplitNoSep(s[1..], sep);
      assert s == [s[0]] + s[1..];
    }
  }

  lemma {:induction false} SplitFirst(p: string, sep: char, rest: string)
    requires sep !in p
    ensures Split(p + [sep] + rest, sep) == [p] + Split(rest, sep)
    decreases |p|
  {
    var s := p + [sep] + rest;
    if p != [] {
      assert s[0] == p[0];
      assert s[1..] == p[1..] + [sep] + rest;
      SplitFirst(p[1..], sep, rest);
      assert [p[0]] + p[1..] == p;
    } else {
      assert s[1..] == rest;
    }
  }

  /** Splitting undoes joining when no part holds the separator. */
  lemma {:induction false} SplitJoin(parts: seq<string>, sep: char)
    requires |parts| >= 1
    requires forall k :: 0 <= k < |parts| ==> sep !in parts[k]
    ensures Split(Join(parts, sep), sep) == parts
    decreases |parts|
  {
    if |parts| == 1 {
      SplitNoSep(parts[0], sep);
    } else {
      SplitJoin(parts[1..], sep);
      SplitFirst(parts[0], sep, Join(parts[1..], sep));
      assert parts == [parts[0]] + parts[1..];
    }
  }

  /** A text ending in a separator splits into its parts and a last empty
      piece. */
  lemma SplitJoinTrailing(parts: seq<string>, sep: char)
    requires forall k :: 0 <= k < |parts| ==> sep !in parts[k]
    ensures Split(Join(parts + [""], sep), sep) == parts + [""]
  {
    var all := parts + [""];
    assert forall k :: 0 <= k < |all| ==> sep !in all[k] by {
      forall k | 0 <= k < |all|
        ensures sep !in all[k]
      {
        if k < |parts| {
          assert all[k] == parts[k];
        }
      }
    }
    SplitJoin(all, sep);
  }

  /** Python's `s.strip().split("\n")`: the lines of a tool's output. */
  function StripLines(s: string): (r: seq<string>)
    ensures |r| >= 1
  {
    Split(Strip(s), '\n')
  }

  /** A non-empty run of non-whitespace characters: a package name or a
      version as tools print them. */
  predicate Word(w: string) {
    w != [] && forall c :: c in w ==> !IsSpace(c)
  }

  /** A word is left alone by `strip` and holds no space. */
  lemma StripWord(w: string)
    requires Word(w)
    ensures Strip(w) == w && ' ' !in w
  {
    assert w[0] in w && w[|w| - 1] in w;
    StripUnchanged(w);
    assert IsSpace(' ');
  }

  /** Joining non-empty parts keeps the first character of the first part and
      the last character of the last one at the two ends. */
  lemma {:induction false} JoinEnds(parts: seq<string>, sep: char)
    requires parts != [] && forall k :: 0 <= k < |parts| ==> parts[k] != []
    ensures Join(parts, sep) != []
    ensures Join(parts, sep)[0] == parts[0][0]
    ensures Join(parts, sep)[|Join(parts, sep)| - 1] == parts[|parts| - 1][|parts[|parts| - 1]| - 1]
    decreases |parts|
  {
    if |parts| > 1 {
      JoinEnds(parts[1..], sep);
    }
  }

  /** Output printed one word per line, with the final line break, reads back
      as exactly those words. */
  lemma StripLinesOfJoin(words: seq<string>)
    requires words != [] && forall k :: 0 <= k < |words| ==> Word(words[k])
    ensures StripLines(Join(words, '\n') + "\n") == words
  {
    var j := Join(words, '\n');
    JoinEnds(words, '\n');
    assert words[0][0] in words[0];
    assert words[|words| - 1][|words[|words| - 1]| - 1] in words[|words| - 1];
    StripLineBreak(j);
    forall k | 0 <= k < |words| ensures '\n' !in words[k] {
      assert IsSpace('\n');
    }
    SplitJoin(words, '\n');
  }

  /** A final line break is all `strip` removes from text that neither starts
      nor ends with whitespace. */
  lemma StripLineBreak(s: string)
    requires s != [] && !IsSpace(s[0]) && !IsSpace(s[|s| - 1])
    ensures Strip(s + "\n") == s
  {
    var t := s + "\n";
    assert LStrip(t) == t;
    assert t[..|t| - 1] == s;
    assert RStrip(t) == RStrip(s) == s;
  }

  /** Python's `s.replace(pat, rep)`: every non-overlapping occurrence, found
      from the left, is replaced. */
  function ReplaceAll(s: string, pat: string, rep: string): (r: string)
    requires pat != []
    ensures !Contains(s, pat) ==> r == s
    decreases |s|
  {
    if |s| < |pat| then s
    else if s[..|pat|] == pat then rep + ReplaceAll(s[|pat|..], pat, rep)
    else [s[0]] + ReplaceAll(s[1..], pat, rep)
  }

  /** Replacing one character by another keeps the length and removes the
      replaced character. */
  lemma {:induction false} ReplaceCharRemoves(s: string, a: char, b: char)
    requires a != b
    ensures |ReplaceAll(s, [a], [b])| == |s|
    ensures a !in ReplaceAll(s, [a], [b])
    decreases |s|
  {
    if s != [] {
      ReplaceCharRemoves(s[1..], a, b);
    }
  }

  /** When `pat` occurs in `base + pat` only at the very end, removing every
      occurrence of `pat` strips exactly that suffix. */
  lemma {:induction false} RemoveOnlySuffix(base: string, pat: string)
    requires pat != []
    requires forall i :: 0 <= i < |base| ==> !StartsWith((base + pat)[i..], pat)
    ensures ReplaceAll(base + pat, pat, "") == base
    decreases |base|
  {
    var s := base + pat;
    if base == [] {
      assert s == pat;
      assert s[|pat|..] == [];
    } else {
      assert !StartsWith(s[0..], pat);
      assert s[0..] == s;
      assert s[1..] == base[1..] + pat;
      forall i | 0 <= i < |base[1..]|
        ensures !StartsWith((base[1..] + pat)[i..], pat)
      {
        assert (base[1..] + pat)[i..] == s[i + 1..];
      }
      RemoveOnlySuffix(base[1..], pat);
      assert [base[0]] + base[1..] == base;
    }
  }

  predicate IsUpper(c: char) { 'A' <= c <= 'Z' }
  predicate IsLower(c: char) { 'a' <= c <= 'z' }
  predicate IsCased(c: char) { IsUpper(c) || IsLower(c) }

  function ToLower(c: char): char { if IsUpper(c) then (c as int + 32) as char else c }
  function ToUpper(c: char): char { if IsLower(c) then (c as int - 32) as char else c }

  /** Python's `s.lower()` on ASCII letters. */
  function Lower(s: string): (r: string)
    ensures |r| == |s|
    ensures forall k :: 0 <= k < |s| ==> r[k] == ToLower(s[k]) && !IsUpper(r[k])
  {
    seq(|s|, k requires 0 <= k < |s| => ToLower(s[k]))
  }

  /** Python's `s.title()` on ASCII letters: a letter that follows a letter is
      lowered, any other letter is raised; other characters are kept. */
  function Title(s: string): (r: string)
    ensures |r| == |s|
    ensures forall k :: 0 <= k < |s| ==> r[k] == (if k > 0 && IsCased(s[k - 1]) then ToLower(s[k]) else ToUpper(s[k]))
  {
    seq(|s|, k requires 0 <= k < |s| => if k > 0 && IsCased(s[k - 1]) then ToLower(s[k]) else ToUpper(s[k]))
  }

  /** Python's `s.rstrip(c)` for one character: the longest prefix not ending
      in `c`, the rest being all `c`. */
  function RStripChar(s: string, c: char): (r: string)
    ensures |r| <= |s| && r == s[..|r|]
    ensures r == [] || r[|r| - 1] != c
    ensures forall k :: |r| <= k < |s| ==> s[k] == c
    decreases |s|
  {
    if s != [] && s[|s| - 1] == c then RStripChar(s[..|s| - 1], c) else s
  }
}
