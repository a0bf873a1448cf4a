/** The operations of Python's `str` that the agent relies on, over Dafny strings (sequences of Unicode scalar values). */
module Text {
  import opened Wrappers

  /** `c.isspace()`: the characters that `str.strip()` removes. */
  predicate IsSpace(c: char) {
    || ('\t' <= c <= '\r')
    || ('\U{1C}' <= c <= '\U{1F}')
    || c == ' '
    || c == '\U{85}'
    || c == '\U{A0}'
    || c == '\U{1680}'
    || ('\U{2000}' <= c <= '\U{200A}')
    || c == '\U{2028}'
    || c == '\U{2029}'
    || c == '\U{202F}'
    || c == '\U{205F}'
    || c == '\U{3000}'
  }

  predicate AllSpace(s: string) {
    forall i {:trigger IsSpace(s[i])} :: 0 <= i < |s| ==> IsSpace(s[i])
  }

  /** Neither end of `s` is whitespace: the shape of everything `str.strip()` returns. */
  predicate Trimmed(s: string) {
    s == [] || (!IsSpace(s[0]) && !IsSpace(s[|s| - 1]))
  }

  predicate StartsWith(s: string, prefix: string) {
    |prefix| <= |s| && s[..|prefix|] == prefix
  }

  /** Text appended after a prefix keeps it a prefix. */
  lemma StartsWithAppend(s: string, prefix: string, t: string)
    requires StartsWith(s, prefix)
    ensures StartsWith(s + t, prefix)
  {
    assert (s + t)[..|prefix|] == s[..|prefix|];
  }

  lemma StartsWithConcat(prefix: string, s: string)
    ensures StartsWith(prefix + s, prefix) && (prefix + s)[|prefix|..] == s
  {
    assert (prefix + s)[..|prefix|] == prefix;
  }

  lemma EndsWithConcat(s: string, suffix: string)
    ensures EndsWith(s + suffix, suffix) && (s + suffix)[..|s|] == s
  {
    assert (s + suffix)[|s|..] == suffix;
  }

  /** A prefix of a prefix is a prefix. */
  lemma StartsWithShorter(s: string, prefix: string, shorter: string)
    requires StartsWith(s, prefix) && StartsWith(prefix, shorter)
    ensures StartsWith(s, shorter)
  {
    assert s[..|shorter|] == prefix[..|shorter|];
  }

  predicate EndsWith(s: string, suffix: string) {
    |suffix| <= |s| && s[|s| - |suffix|..] == suffix
  }

  // ---------------------------------------------------------------------------
  // Whitespace trimming: str.lstrip(), str.rstrip(), str.strip()
  // ---------------------------------------------------------------------------

  lemma AllSpaceConcat(a: string, b: string)
    requires AllSpace(a) && AllSpace(b)
    ensures AllSpace(a + b)
  {
    forall i | 0 <= i < |a + b|
      ensures IsSpace((a + b)[i])
    {
      if i < |a| {
        assert (a + b)[i] == a[i];
      } else {
        assert (a + b)[i] == b[i - |a|];
      }
    }
  }

  /** `s.lstrip()`: drops the leading whitespace, and only that. */
  function TrimStart(s: string): (r: string)
    ensures |r| <= |s| && r == s[|s| - |r|..]
    ensures AllSpace(s[..|s| - |r|])
    ensures r == [] || !IsSpace(r[0])
    decreases |s|
  {
    if |s| > 0 && IsSpace(s[0]) then
      var t := s[1..];
      var r := TrimStart(t);
      assert s[|s| - |r|..] == t[|t| - |r|..];
      assert s[..|s| - |r|] == [s[0]] + t[..|t| - |r|];
      AllSpaceConcat([s[0]], t[..|t| - |r|]);
      r
    else
      assert s[..0] == [];
      s
  }

  /** `s.rstrip()`: drops the trailing whitespace, and only that. */
  function TrimEnd(s: string): (r: string)
    ensures |r| <= |s| && r == s[..|r|]
    ensures AllSpace(s[|r|..])
    ensures r == [] || !IsSpace(r[|r| - 1])
    decreases |s|
  {
    if |s| > 0 && IsSpace(s[|s| - 1]) then
      var t := s[..|s| - 1];
      var r := TrimEnd(t);
      assert s[..|r|] == t[..|r|];
      assert s[|r|..] == t[|r|..] + [s[|s| - 1]];
      AllSpaceConcat(t[|r|..], [s[|s| - 1]]);
      r
    else
      assert s[|s|..] == [];
      s
  }

  /** `s.strip()` */
  function Trim(s: string): (r: string)
    ensures Trimmed(r)
    ensures |r| <= |s|
  {
    TrimEnd(TrimStart(s))
  }

  /** `strip()` cuts `s` into leading whitespace, the result, and trailing whitespace. */
  lemma {:induction false} TrimRemovesOnlyEdgeSpace(s: string)
    ensures var lead, trail := s[..|s| - |TrimStart(s)|], TrimStart(s)[|Trim(s)|..];
      && s == lead + Trim(s) + trail
      && AllSpace(lead)
      && AllSpace(trail)
  {
    TrimSplits(s);
    assert Trim(s) == TrimEnd(TrimStart(s));
  }

  /** The text is its leading whitespace, then what `strip()` keeps, then the rest. */
  lemma TrimSplits(s: string)
    ensures s == s[..|s| - |TrimStart(s)|] + Trim(s) + TrimStart(s)[|Trim(s)|..]
  {
    var t := TrimStart(s);
    var r := TrimEnd(t);
    assert Trim(s) == r;
    SuffixThenPrefix(s, t, r);
  }

  /** A prefix `r` of a suffix `t` of `s` cuts `s` into three parts. */
  lemma SuffixThenPrefix(s: string, t: string, r: string)
    requires |t| <= |s| && t == s[|s| - |t|..]
    requires |r| <= |t| && r == t[..|r|]
    ensures s == s[..|s| - |t|] + r + t[|r|..]
  {
    assert s == s[..|s| - |t|] + t;
    assert t == r + t[|r|..];
  }

  /** A string without edge whitespace is left alone by `strip()`. */
  lemma TrimOfTrimmed(s: string)
    requires Trimmed(s)
    ensures Trim(s) == s
  {
  }

  lemma TrimIdempotent(s: string)
    ensures Trim(Trim(s)) == Trim(s)
  {
    TrimOfTrimmed(Trim(s));
  }

  lemma {:induction false} TrimStartSkipsSpace(p: string, s: string)
    requires AllSpace(p)
    ensures TrimStart(p + s) == TrimStart(s)
    decreases |p|
  {
    if p == [] {
      assert p + s == s;
    } else {
      assert (p + s)[0] == p[0];
      assert (p + s)[1..] == p[1..] + s;
      TrimStartSkipsSpace(p[1..], s);
    }
  }

  lemma {:induction false} TrimEndSkipsSpace(s: string, q: string)
    requires AllSpace(q)
    ensures TrimEnd(s + q) == TrimEnd(s)
    decreases |q|
  {
    if q == [] {
      assert s + q == s;
    } else {
      assert (s + q)[|s + q| - 1] == q[|q| - 1];
      assert (s + q)[..|s + q| - 1] == s + q[..|q| - 1];
      TrimEndSkipsSpace(s, q[..|q| - 1]);
    }
  }

  /** Whitespace around a trimmed string is exactly what `strip()` takes away. */
  lemma {:induction false} TrimAround(p: string, s: string, q: string)
    requires AllSpace(p) && AllSpace(q) && Trimmed(s)
    ensures Trim(p + s + q) == s
  {
    assert p + s + q == p + (s + q);
    TrimStartSkipsSpace(p, s + q);
    if s == [] {
      assert s + q == q + [];
      TrimStartSkipsSpace(q, []);
      assert TrimStart(p + s + q) == [];
    } else {
      assert (s + q)[0] == s[0];
      assert TrimStart(s + q) == s + q;
      TrimEndSkipsSpace(s, q);
      assert TrimEnd(s) == s;
    }
  }

  /** A trailing newline after a trimmed string is stripped away. */
  lemma TrimDropsNewline(s: string)
    requires Trimmed(s)
    ensures Trim(s + "\n") == s
  {
    assert IsSpace("\n"[0]);
    TrimAround([], s, "\n");
    assert [] + s + "\n" == s + "\n";
  }

  // ---------------------------------------------------------------------------
  // Lower-casing: str.lower()
  // ---------------------------------------------------------------------------

  /** `c.lower()` for the ASCII letters; every other character is kept. */
  function LowerChar(c: char): char {
    if 'A' <= c <= 'Z' then (c as int + 32) as char else c
  }

  /** `s.lower()`, character by character. */
  function Lower(s: string): (r: string)
    ensures |r| == |s|
    ensures forall i :: 0 <= i < |r| ==> !('A' <= r[i] <= 'Z')
    ensures forall i :: 0 <= i < |s| && !('A' <= s[i] <= 'Z') ==> r[i] == s[i]
    ensures forall i :: 0 <= i < |s| && 'A' <= s[i] <= 'Z' ==> r[i] == (s[i] as int + 32) as char
  {
    seq(|s|, i requires 0 <= i < |s| => LowerChar(s[i]))
  }

  /** Lower-casing twice is lower-casing once. */
  lemma LowerIdempotent(s: string)
    ensures Lower(Lower(s)) == Lower(s)
  {
    assert forall i :: 0 <= i < |s| ==> LowerChar(LowerChar(s[i])) == LowerChar(s[i]);
  }

  // ---------------------------------------------------------------------------
  // Substring search: `w in s`
  // ---------------------------------------------------------------------------

  /** `w` occurs in `s` starting at index `i`. */
  predicate OccursAt(s: string, w: string, i: nat) {
    i + |w| <= |s| && s[i..i + |w|] == w
  }

  /** The search behind `w in s` and `s.split(w)`: the first index at or after `i` where `w`
      occurs, if any. */
  function FindFrom(s: string, w: string, i: nat): (r: Option<nat>)
    ensures r.Some? ==> i <= r.value && OccursAt(s, w, r.value)
    ensures r.Some? ==> forall j :: i <= j < r.value ==> !OccursAt(s, w, j)
    ensures r.None? ==> forall j :: i <= j ==> !OccursAt(s, w, j)
    decreases |s| - i
  {
    if i + |w| > |s| then None
    else if s[i..i + |w|] == w then Some(i)
    else FindFrom(s, w, i + 1)
  }

  /** Python's `w in s`: raw substring containment, with no regard for word boundaries. */
  function Contains(s: string, w: string): (b: bool)
    ensures b <==> exists i: nat :: OccursAt(s, w, i)
  {
    FindFrom(s, w, 0).Some?
  }

  /** An occurrence inside an occurrence is an occurrence. */
  lemma ContainsTransitive(s: string, m: string, w: string)
    requires Contains(s, m) && Contains(m, w)
    ensures Contains(s, w)
  {
    var i: nat :| OccursAt(s, m, i);
    var j: nat :| OccursAt(m, w, j);
    assert forall k :: 0 <= k < |w| ==> w[k] == m[j + k] == s[i + j + k];
    assert s[i + j..i + j + |w|] == w;
    assert OccursAt(s, w, i + j);
  }

  lemma OccursExtend(s: string, t: string, w: string, j: nat)
    ensures OccursAt(s, w, j) ==> OccursAt(s + t, w, j)
  {
    if OccursAt(s, w, j) {
      assert (s + t)[j..j + |w|] == s[j..j + |w|];
    }
  }

  lemma OccursInPrefix(s: string, e: string, w: string, j: nat)
    requires |e| <= |s| && e == s[..|e|] && j + |w| <= |e|
    ensures OccursAt(s, w, j) ==> OccursAt(e, w, j)
  {
    assert s[j..j + |w|] == e[j..j + |w|];
  }

  // ---------------------------------------------------------------------------
  // Joining and splitting: sep.join(parts), s.split(sep)
  // ---------------------------------------------------------------------------

  /** `sep.join(parts)` */
  function Join(sep: string, parts: seq<string>): string {
    if |parts| == 0 then ""
    else if |parts| == 1 then parts[0]
    else parts[0] + sep + Join(sep, parts[1..])
  }

  lemma JoinThree(sep: string, a: string, b: string, c: string)
    ensures Join(sep, [a, b, c]) == a + sep + b + sep + c
  {
    assert [a, b, c][1..] == [b, c] && [b, c][1..] == [c];
    assert Join(sep, [c]) == c;
  }

  /** `s.split(sep)`: cut at each occurrence of `sep`, scanning left to right. */
  function Split(s: string, sep: string): (parts: seq<string>)
    requires |sep| > 0
    ensures |parts| > 0
    decreases |s|
  {
    match FindFrom(s, sep, 0)
    case None => [s]
    case Some(i) => [s[..i]] + Split(s[i + |sep|..], sep)
  }

  /** `p` neither contains `sep` nor forms it with the start of a following `sep`,
      so in `p + sep + ...` the first occurrence of `sep` is the one right after `p`. */
  predicate Separable(p: string, sep: string)
    requires |sep| > 0
  {
    !Contains(p + sep[..|sep| - 1], sep)
  }

  lemma NoOccurrence(p: string, sep: string)
    requires |sep| > 0 && Separable(p, sep)
    ensures FindFrom(p, sep, 0) == None
  {
    forall j: nat ensures !OccursAt(p, sep, j) {
      OccursExtend(p, sep[..|sep| - 1], sep, j);
    }
  }

  lemma FirstOccurrence(p: string, sep: string, rest: string)
    requires |sep| > 0 && Separable(p, sep)
    ensures FindFrom(p + sep + rest, sep, 0) == Some(|p|)
  {
    var s := p + sep + rest;
    var e := p + sep[..|sep| - 1];
    assert s[|p|..|p| + |sep|] == sep;
    assert OccursAt(s, sep, |p|);
    assert e == s[..|e|];
    forall j: nat | j < |p| ensures !OccursAt(s, sep, j) {
      OccursInPrefix(s, e, sep, j);
    }
  }

  /** A separable first part is split off at the separator that follows it. */
  lemma SplitFront(p: string, sep: string, rest: string)
    requires |sep| > 0 && Separable(p, sep)
    ensures Split(p + sep + rest, sep) == [p] + Split(rest, sep)
  {
    var s := p + sep + rest;
    FirstOccurrence(p, sep, rest);
    assert s[..|p|] == p;
    assert s[|p| + |sep|..] == rest;
  }

  /** Splitting undoes joining, as long as no part can be mistaken for a separator. */
  lemma {:induction false} SplitJoin(sep: string, parts: seq<string>)
    requires |sep| > 0 && |parts| > 0
    requires forall k :: 0 <= k < |parts| ==> Separable(parts[k], sep)
    ensures Split(Join(sep, parts), sep) == parts
    decreases |parts|
  {
    if |parts| == 1 {
      NoOccurrence(parts[0], sep);
    } else {
      SplitFront(parts[0], sep, Join(sep, parts[1..]));
      SplitJoin(sep, parts[1..]);
      assert parts == [parts[0]] + parts[1..];
    }
  }

  /** `s` holds no newline, so it stays on one line of a newline-separated text. */
  predicate OneLine(s: string) {
    '\n' !in s
  }

  lemma OneLineHasNoNewline(s: string)
    requires OneLine(s)
    ensures !Contains(s, "\n")
  {
    forall i: nat ensures !OccursAt(s, "\n", i) {
      if i + 1 <= |s| {
        assert s[i..i + 1] == [s[i]];
        assert s[i] in s;
      }
    }
  }

  // ---------------------------------------------------------------------------
  // Text built line by line with `+= line + "\n"`
  // ---------------------------------------------------------------------------

  /** Every line followed by a newline. */
  function Unlines(lines: seq<string>): string {
    if lines == [] then "" else Unlines(lines[..|lines| - 1]) + lines[|lines| - 1] + "\n"
  }

  lemma UnlinesSnoc(lines: seq<string>, line: string)
    ensures Unlines(lines + [line]) == Unlines(lines) + line + "\n"
  {
    assert (lines + [line])[..|lines|] == lines;
  }

  /** Appending a line and its newline to text that ends in some lines extends those lines. */
  lemma UnlinesAppendLine(prefix: string, lines: seq<string>, line: string)
    ensures prefix + Unlines(lines) + (line + "\n") == prefix + Unlines(lines + [line])
  {
    UnlinesSnoc(lines, line);
  }

  lemma UnlinesThree(a: string, b: string, c: string)
    ensures Unlines([a, b, c]) == a + "\n" + b + "\n" + c + "\n"
  {
    UnlinesSnoc([], a);
    UnlinesSnoc([a], b);
    UnlinesSnoc([a, b], c);
    assert [] + [a] == [a] && [a] + [b] == [a, b] && [a, b] + [c] == [a, b, c];
  }

  lemma UnlinesFour(a: string, b: string, c: string, d: string)
    ensures Unlines([a, b, c, d]) == a + "\n" + b + "\n" + c + "\n" + d + "\n"
  {
    UnlinesThree(a, b, c);
    UnlinesSnoc([a, b, c], d);
    assert [a, b, c] + [d] == [a, b, c, d];
  }

  lemma {:induction false} UnlinesAppend(a: seq<string>, b: seq<string>)
    ensures Unlines(a + b) == Unlines(a) + Unlines(b)
    decreases |b|
  {
    if b != [] {
      var b' := b[..|b| - 1];
      assert (a + b)[..|a + b| - 1] == a + b';
      UnlinesAppend(a, b');
    } else {
      assert a + b == a;
    }
  }

  /** Newline-terminated lines are the lines joined by newlines, plus an empty last piece. */
  lemma {:induction false} UnlinesIsJoin(lines: seq<string>)
    ensures Unlines(lines) == Join("\n", lines + [""])
    decreases |lines|
  {
    if lines != [] {
      UnlinesAppend([lines[0]], lines[1..]);
      assert [lines[0]] + lines[1..] == lines;
      assert Unlines([lines[0]]) == lines[0] + "\n";
      UnlinesIsJoin(lines[1..]);
      assert (lines + [""])[1..] == lines[1..] + [""];
    }
  }

  /** No two newlines in a row: the text has no blank line inside it. */
  predicate NoBlankLine(s: string) {
    forall j :: 0 <= j < |s| - 1 ==> s[j] != '\n' || s[j + 1] != '\n'
  }

  lemma NoBlankLineHasNoDoubleNewline(s: string)
    requires NoBlankLine(s)
    ensures !Contains(s, "\n\n")
  {
    forall j: nat ensures !OccursAt(s, "\n\n", j) {
      if j + 2 <= |s| {
        assert s[j..j + 2][0] == s[j] && s[j..j + 2][1] == s[j + 1];
      }
    }
  }

  /** Non-empty single lines, each ended by a newline, never leave a blank line between them. */
  lemma {:induction false} UnlinesNoBlankLine(lines: seq<string>)
    requires forall k :: 0 <= k < |lines| ==> lines[k] != [] && OneLine(lines[k])
    ensures NoBlankLine(Unlines(lines))
    decreases |lines|
  {
    if lines != [] {
      var front, x := lines[..|lines| - 1], lines[|lines| - 1];
      UnlinesNoBlankLine(front);
      var a := Unlines(front);
      var s := Unlines(lines);
      assert s == a + x + "\n";
      assert x[0] in x;
      forall j | 0 <= j < |s| - 1 ensures s[j] != '\n' || s[j + 1] != '\n' {
        if j + 1 < |a| {
          assert s[j] == a[j] && s[j + 1] == a[j + 1];
        } else if j + 1 == |a| {
          assert s[j + 1] == x[0];
        } else {
          assert s[j] == x[j - |a|];
          assert x[j - |a|] in x;
        }
      }
    }
  }

  /** Splitting newline-terminated text at "\n" gives back its lines, and an empty last piece. */
  lemma {:induction false} SplitUnlines(lines: seq<string>)
    requires forall k :: 0 <= k < |lines| ==> !Contains(lines[k], "\n")
    ensures Split(Unlines(lines), "\n") == lines + [""]
  {
    UnlinesIsJoin(lines);
    var parts := lines + [""];
    forall k | 0 <= k < |parts| ensures Separable(parts[k], "\n") {
      assert parts[k] + "\n"[..0] == parts[k];
    }
    SplitJoin("\n", parts);
  }
}
