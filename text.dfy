/**
 * The Python string built-ins the scripts rely on, over `seq<char>`:
 * `str.rstrip()`, `str.lower()`, `sub in s`, `str.startswith`,
 * `str.find`, `str.replace(a, b, 1)`, slicing `[::-1]`, `str.split(sep)`
 * and `str.split()`.
 */
module Text {
  import opened Seqs

  type String = seq<char>

  /** Python's `str.isspace()` for one code point: the characters that
      `rstrip()` and `split()` treat as white space. */
  predicate IsSpace(c: char) {
    || '\t' <= c <= '\r'
    || '\U{1c}' <= c <= ' '
    || c == '\U{85}' || c == '\U{a0}' || c == '\U{1680}'
    || '\U{2000}' <= c <= '\U{200a}'
    || c == '\U{2028}' || c == '\U{2029}' || c == '\U{202f}' || c == '\U{205f}' || c == '\U{3000}'
  }

  /** `s.rstrip()`: `s` without its trailing white space. */
  function RStrip(s: String): (r: String)
    ensures r <= s
    ensures r == [] || !IsSpace(r[|r| - 1])
    ensures forall i :: |r| <= i < |s| ==> IsSpace(s[i])
  {
    if s != [] && IsSpace(s[|s| - 1]) then RStrip(s[..|s| - 1]) else s
  }

  /** Lower-casing of one letter, for ASCII and Latin-1 capitals
      (this covers the Icelandic alphabet). */
  function LowerChar(c: char): char {
    if 'A' <= c <= 'Z' || ('\U{c0}' <= c <= '\U{de}' && c != '\U{d7}') then
      (c as int + 32) as char
    else c
  }

  /** `s.lower()`. */
  function Lower(s: String): (r: String)
    ensures |r| == |s|
    ensures forall i :: 0 <= i < |s| ==> r[i] == LowerChar(s[i])
  {
    if s == [] then [] else Lower(s[..|s| - 1]) + [LowerChar(s[|s| - 1])]
  }

  predicate StartsWith(s: String, p: String) {
    |p| <= |s| && s[..|p|] == p
  }

  predicate EndsWith(s: String, p: String) {
    |p| <= |s| && s[|s| - |p|..] == p
  }

  /** `sub` occurs in `s` starting at position `i`. */
  predicate MatchAt(s: String, sub: String, i: int) {
    0 <= i && i + |sub| <= |s| && s[i..i + |sub|] == sub
  }

  /** `sub in s` on strings. */
  predicate Contains(s: String, sub: String) {
    exists i :: 0 <= i <= |s| - |sub| && MatchAt(s, sub, i)
  }

  lemma MatchShift(s: String, sub: String, j: int)
    requires s != [] && j >= 1
    ensures MatchAt(s, sub, j) <==> MatchAt(s[1..], sub, j - 1)
  {
    if j + |sub| <= |s| {
      var t := s[1..];
      var u, v := s[j..j + |sub|], t[j - 1..j - 1 + |sub|];
      forall i | 0 <= i < |sub|
        ensures u[i] == v[i]
      {
        assert u[i] == s[j + i];
        assert v[i] == t[j - 1 + i];
      }
      assert u == v;
    }
  }

  /** `s.find(sub)`: the first position where `sub` starts, or -1. */
  function Find(s: String, sub: String): (k: int)
    ensures k >= -1
    ensures k >= 0 ==> k + |sub| <= |s|
    decreases |s|
  {
    if StartsWith(s, sub) then 0
    else if s == [] then -1
    else
      var k := Find(s[1..], sub);
      if k == -1 then -1 else k + 1
  }

  /** Find reports the first match, and -1 exactly when there is none. */
  lemma FindIsFirstMatch(s: String, sub: String)
    ensures var k := Find(s, sub);
            && (k >= 0 ==> MatchAt(s, sub, k))
            && (k >= 0 ==> forall j :: 0 <= j < k ==> !MatchAt(s, sub, j))
            && (k == -1 <==> !Contains(s, sub))
  {
    var k := Find(s, sub);
    if k >= 0 {
      FindFirst(s, sub);
      assert 0 <= k <= |s| - |sub| && MatchAt(s, sub, k);
    } else {
      FindNone(s, sub);
    }
  }

  /** A non-negative Find is a match with no match before it. */
  lemma {:induction false} FindFirst(s: String, sub: String)
    requires Find(s, sub) >= 0
    ensures MatchAt(s, sub, Find(s, sub))
    ensures forall j :: 0 <= j < Find(s, sub) ==> !MatchAt(s, sub, j)
    decreases |s|
  {
    if StartsWith(s, sub) {
      assert MatchAt(s, sub, 0);
    } else {
      var t := s[1..];
      var k := Find(t, sub);
      assert Find(s, sub) == k + 1;
      FindFirst(t, sub);
      MatchShift(s, sub, k + 1);
      forall j | 0 <= j < k + 1
        ensures !MatchAt(s, sub, j)
      {
        if j >= 1 {
          MatchShift(s, sub, j);
        }
      }
    }
  }

  /** When Find gives -1, `sub` matches nowhere. */
  lemma {:induction false} FindNone(s: String, sub: String)
    requires Find(s, sub) == -1
    ensures !Contains(s, sub)
    decreases |s|
  {
    if s != [] {
      var t := s[1..];
      FindNone(t, sub);
      forall j | 0 <= j <= |s| - |sub|
        ensures !MatchAt(s, sub, j)
      {
        if j >= 1 {
          MatchShift(s, sub, j);
          assert !MatchAt(t, sub, j - 1);
        }
      }
    }
  }

  /** `s.replace(a, b, 1)`: replace the first occurrence of `a` (an empty `a`
      occurs at the very start). */
  function ReplaceFirst(s: String, a: String, b: String): String
  {
    if StartsWith(s, a) then b + s[|a|..]
    else if s == [] then []
    else [s[0]] + ReplaceFirst(s[1..], a, b)
  }

  /** ReplaceFirst splices `b` in at the position `str.find` reports, and
      leaves a string without `a` unchanged. */
  lemma {:induction false} ReplaceFirstAtFind(s: String, a: String, b: String)
    ensures var k := Find(s, a);
            ReplaceFirst(s, a, b) == if k == -1 then s else s[..k] + b + s[k + |a|..]
    decreases |s|
  {
    if StartsWith(s, a) {
      assert Find(s, a) == 0;
      assert s[..0] + b + s[|a|..] == b + s[|a|..];
    } else if s != [] {
      var t := s[1..];
      var k := Find(t, a);
      ReplaceFirstAtFind(t, a, b);
      assert ReplaceFirst(s, a, b) == [s[0]] + ReplaceFirst(t, a, b);
      if k == -1 {
        assert Find(s, a) == -1;
        assert s == [s[0]] + t;
      } else {
        assert Find(s, a) == k + 1;
        SpliceShift(s, a, b, k);
      }
    }
  }

  /** Splicing one character further right in the string without its head. */
  lemma SpliceShift(s: String, a: String, b: String, k: nat)
    requires s != [] && k + |a| <= |s| - 1
    ensures [s[0]] + (s[1..][..k] + b + s[1..][k + |a|..]) == s[..k + 1] + b + s[k + 1 + |a|..]
  {
    assert s[..k + 1] == [s[0]] + s[1..][..k];
    assert s[k + 1 + |a|..] == s[1..][k + |a|..];
  }

  /** `s[::-1]`. */
  function Reverse<T>(s: seq<T>): (r: seq<T>)
    ensures |r| == |s|
    ensures forall i :: 0 <= i < |s| ==> r[i] == s[|s| - 1 - i]
  {
    if s == [] then [] else Reverse(s[1..]) + [s[0]]
  }

  lemma ReverseReverse<T>(s: seq<T>)
    ensures Reverse(Reverse(s)) == s
  {
  }

  lemma ReverseAppend<T>(a: seq<T>, b: seq<T>)
    ensures Reverse(a + b) == Reverse(b) + Reverse(a)
  {
  }

  /** Replace the occurrence of `a` that ends rightmost. */
  function ReplaceLast(s: String, a: String, b: String): String
  {
    if EndsWith(s, a) then s[..|s| - |a|] + b
    else if s == [] then []
    else ReplaceLast(s[..|s| - 1], a, b) + [s[|s| - 1]]
  }

  /** The "backwards" substitution of the word-list script (reverse,
      `replace(a, b, 1)`, reverse back) replaces the rightmost occurrence of
      the REVERSED `a` by the reversed `b`: the search is for `a` as written,
      inside the reversed word. */
  lemma {:induction false} BackwardReplaceIsReplaceLast(s: String, a: String, b: String)
    ensures Reverse(ReplaceFirst(Reverse(s), a, b)) == ReplaceLast(s, Reverse(a), Reverse(b))
    decreases |s|
  {
    var rs := Reverse(s);
    if StartsWith(rs, a) {
      BackwardAtEnd(s, a, b);
    } else {
      ReversedStarts(s, a);
      if s != [] {
        var init := s[..|s| - 1];
        assert rs == [s[|s| - 1]] + Reverse(init);
        BackwardReplaceIsReplaceLast(init, a, b);
        ReverseAppend([s[|s| - 1]], ReplaceFirst(Reverse(init), a, b));
      }
    }
  }

  /** The reversed string starts with `a` exactly when the string ends with
      the reversed `a`. */
  lemma ReversedStarts(s: String, a: String)
    ensures StartsWith(Reverse(s), a) <==> EndsWith(s, Reverse(a))
  {
    if StartsWith(Reverse(s), a) {
      StartsOfReversed(s, a);
    }
    if EndsWith(s, Reverse(a)) {
      EndsGiveReversedStart(s, a);
    }
  }

  /** A prefix of the reversed string, reversed, ends the string. */
  lemma StartsOfReversed(s: String, a: String)
    requires StartsWith(Reverse(s), a)
    ensures EndsWith(s, Reverse(a))
  {
    var n := |s| - |a|;
    forall j | 0 <= j < |a| ensures s[n..][j] == Reverse(a)[j] {
      assert Reverse(s)[..|a|][|a| - 1 - j] == a[|a| - 1 - j];
    }
    assert s[n..] == Reverse(a);
  }

  /** A reversed suffix of the string starts the reversed string. */
  lemma EndsGiveReversedStart(s: String, a: String)
    requires EndsWith(s, Reverse(a))
    ensures StartsWith(Reverse(s), a)
  {
    var n := |s| - |a|;
    forall i | 0 <= i < |a| ensures Reverse(s)[..|a|][i] == a[i] {
      assert s[n..][|a| - 1 - i] == Reverse(a)[|a| - 1 - i];
    }
    assert Reverse(s)[..|a|] == a;
  }




  /** The backwards substitution when the reversed string starts with `a`. */
  lemma BackwardAtEnd(s: String, a: String, b: String)
    requires StartsWith(Reverse(s), a)
    ensures Reverse(ReplaceFirst(Reverse(s), a, b)) == ReplaceLast(s, Reverse(a), Reverse(b))
  {
    ReversedStarts(s, a);
    var n := |s| - |a|;
    assert Reverse(s)[|a|..] == Reverse(s[..n]);
    ReverseAppend(b, Reverse(s[..n]));
    ReverseReverse(s[..n]);
  }

  /** For one-character candidates the backwards substitution replaces the
      rightmost occurrence. */
  lemma BackwardReplaceSingleChars(s: String, a: char, b: char)
    ensures Reverse(ReplaceFirst(Reverse(s), [a], [b])) == ReplaceLast(s, [a], [b])
  {
    BackwardReplaceIsReplaceLast(s, [a], [b]);
    assert Reverse([a]) == [a] && Reverse([b]) == [b];
  }

  /** With a two-character candidate the backwards substitution can miss an
      occurrence entirely: "ei" -> "ey" leaves "leit" as it is, although
      `replace` turns it into "leyt". */
  lemma BackwardReplaceMissesTwoCharCandidate()
    ensures ReplaceFirst("leit", "ei", "ey") == "leyt"
    ensures Reverse(ReplaceFirst(Reverse("leit"), "ei", "ey")) == "leit"
  {
    ReplaceInLeit();
    ReplaceInReversedLeit();
  }

  lemma ReplaceInLeit()
    ensures ReplaceFirst("leit", "ei", "ey") == "leyt"
  {
    assert ReplaceFirst("eit", "ei", "ey") == "eyt";
  }

  lemma ReplaceInReversedLeit()
    ensures Reverse(ReplaceFirst(Reverse("leit"), "ei", "ey")) == "leit"
  {
    assert Reverse("leit") == "tiel";
    assert !StartsWith("tiel", "ei") && !StartsWith("iel", "ei") && !StartsWith("el", "ei");
    assert ReplaceFirst("tiel", "ei", "ey") == "tiel";
  }

  /** Number of non-overlapping occurrences of `sep`, scanning left to right
      (the occurrences `str.split(sep)` cuts at). */
  function CountOccurrences(s: String, sep: String): nat
    requires sep != []
    decreases |s|
  {
    if StartsWith(s, sep) then 1 + CountOccurrences(s[|sep|..], sep)
    else if s == [] then 0
    else CountOccurrences(s[1..], sep)
  }

  /** `s.split(sep)` for a non-empty separator. */
  function Split(s: String, sep: String): (r: seq<String>)
    requires sep != []
    ensures |r| >= 1
    decreases |s|
  {
    if StartsWith(s, sep) then [[]] + Split(s[|sep|..], sep)
    else if s == [] then [[]]
    else
      var t := Split(s[1..], sep);
      [[s[0]] + t[0]] + t[1..]
  }

  /** A string free of the separator is split into itself alone. */
  lemma {:induction false} SplitWithoutSep(t: String, sep: String)
    requires sep != [] && !Contains(t, sep)
    ensures Split(t, sep) == [t]
    decreases |t|
  {
    if t != [] {
      assert !MatchAt(t, sep, 0);
      forall j | 0 <= j <= |t[1..]| - |sep| ensures !MatchAt(t[1..], sep, j) {
        MatchShift(t, sep, j + 1);
      }
      SplitWithoutSep(t[1..], sep);
      assert [t[0]] + t[1..] == t;
    }
  }

  /** A leading separator splits off an empty first piece. */
  lemma SplitLeadingSep(t: String, sep: String)
    requires sep != []
    ensures Split(sep + t, sep) == [[]] + Split(t, sep)
  {
    assert (sep + t)[..|sep|] == sep;
    assert (sep + t)[|sep|..] == t;
  }

  /** `sep.join(parts)`. */
  function Join(parts: seq<String>, sep: String): String {
    if |parts| == 0 then []
    else if |parts| == 1 then parts[0]
    else parts[0] + sep + Join(parts[1..], sep)
  }

  /** `s.split(sep)` has one piece more than there are separators. */
  lemma {:induction false} SplitCount(s: String, sep: String)
    requires sep != []
    ensures |Split(s, sep)| == CountOccurrences(s, sep) + 1
    decreases |s|
  {
    if StartsWith(s, sep) {
      SplitCount(s[|sep|..], sep);
    } else if s != [] {
      SplitCount(s[1..], sep);
    }
  }

  /** Joining the pieces with the separator gives back the string. */
  lemma {:induction false} JoinSplit(s: String, sep: String)
    requires sep != []
    ensures Join(Split(s, sep), sep) == s
    decreases |s|
  {
    if StartsWith(s, sep) {
      var rest := s[|sep|..];
      JoinSplit(rest, sep);
      JoinCons([], Split(rest, sep), sep);
      assert s == sep + rest;
    } else if s != [] {
      var t := Split(s[1..], sep);
      JoinSplit(s[1..], sep);
      JoinHead(s[0], t, sep);
      assert s == [s[0]] + s[1..];
    }
  }

  /** Joining a first piece onto at least one more. */
  lemma JoinCons(x: String, parts: seq<String>, sep: String)
    requires |parts| >= 1
    ensures Join([x] + parts, sep) == x + sep + Join(parts, sep)
  {
    assert ([x] + parts)[1..] == parts;
  }

  /** Prefixing a character to the first piece prefixes it to the join. */
  lemma JoinHead(c: char, parts: seq<String>, sep: String)
    requires |parts| >= 1
    ensures Join([[c] + parts[0]] + parts[1..], sep) == [c] + Join(parts, sep)
  {
    if |parts| >= 2 {
      JoinCons([c] + parts[0], parts[1..], sep);
      JoinCons(parts[0], parts[1..], sep);
      assert parts == [parts[0]] + parts[1..];
    }
  }

  /** Length of the leading run of non-space characters. */
  function TokenEnd(s: String): (n: nat)
    ensures n <= |s|
    ensures forall i :: 0 <= i < n ==> !IsSpace(s[i])
    ensures n == |s| || IsSpace(s[n])
  {
    if s == [] || IsSpace(s[0]) then 0 else 1 + TokenEnd(s[1..])
  }

  /** `s.split()`: the maximal runs of non-space characters. */
  function Words(s: String): (r: seq<String>)
    decreases |s|
  {
    if s == [] then []
    else if IsSpace(s[0]) then Words(s[1..])
    else
      var n := TokenEnd(s);
      [s[..n]] + Words(s[n..])
  }

  predicate IsWord(t: String) {
    t != [] && forall i :: 0 <= i < |t| ==> !IsSpace(t[i])
  }

  /** The characters of `s` that are not white space, in order. */
  function NonSpace(s: String): String {
    if s == [] then []
    else (if IsSpace(s[0]) then [] else [s[0]]) + NonSpace(s[1..])
  }

  /** `split()` yields non-empty tokens free of white space, and loses
      nothing but the white space. */
  lemma WordsAreWords(s: String)
    ensures forall i :: 0 <= i < |Words(s)| ==> IsWord(Words(s)[i])
    ensures Join(Words(s), []) == NonSpace(s)
  {
    WordsNonEmpty(s);
    WordsJoin(s);
  }

  lemma {:induction false} WordsNonEmpty(s: String)
    ensures forall i :: 0 <= i < |Words(s)| ==> IsWord(Words(s)[i])
    decreases |s|
  {
    if s != [] {
      if IsSpace(s[0]) {
        WordsNonEmpty(s[1..]);
      } else {
        var n := TokenEnd(s);
        WordsNonEmpty(s[n..]);
        var w := Words(s[n..]);
        assert Words(s) == [s[..n]] + w;
        assert forall i :: 1 <= i < |w| + 1 ==> ([s[..n]] + w)[i] == w[i - 1];
      }
    }
  }

  lemma {:induction false} WordsJoin(s: String)
    ensures Join(Words(s), []) == NonSpace(s)
    decreases |s|
  {
    if s != [] {
      if IsSpace(s[0]) {
        WordsJoin(s[1..]);
      } else {
        var n := TokenEnd(s);
        WordsJoin(s[n..]);
        NonSpaceOfToken(s, n);
        var w := Words(s[n..]);
        if w != [] {
          assert ([s[..n]] + w)[1..] == w;
        } else {
          assert NonSpace(s[n..]) == [] by { EmptyWordsAllSpace(s[n..]); }
          assert s[..n] + NonSpace(s[n..]) == s[..n];
        }
      }
    }
  }

  lemma {:induction false} EmptyWordsAllSpace(s: String)
    requires Words(s) == []
    ensures NonSpace(s) == []
    decreases |s|
  {
    if s != [] {
      EmptyWordsAllSpace(s[1..]);
    }
  }

  lemma {:induction false} NonSpaceOfToken(s: String, n: nat)
    requires n <= |s|
    requires forall i :: 0 <= i < n ==> !IsSpace(s[i])
    ensures NonSpace(s) == s[..n] + NonSpace(s[n..])
    decreases n
  {
    if n > 0 {
      NonSpaceOfToken(s[1..], n - 1);
      assert s[1..][n - 1..] == s[n..];
      assert s[..n] == [s[0]] + s[1..][..n - 1];
    }
  }

  lemma {:induction false} TokenEndAppend(a: String, b: String)
    requires TokenEnd(a) < |a|
    ensures TokenEnd(a + b) == TokenEnd(a)
    decreases |a|
  {
    if !IsSpace(a[0]) {
      assert (a + b)[1..] == a[1..] + b;
      TokenEndAppend(a[1..], b);
    }
  }

  /** Splitting on white space distributes over a concatenation whose left
      part is empty or ends in white space. */
  lemma {:induction false} WordsAppend(a: String, b: String)
    requires a == [] || IsSpace(a[|a| - 1])
    ensures Words(a + b) == Words(a) + Words(b)
    decreases |a|
  {
    if a == [] {
      assert a + b == b;
    } else if IsSpace(a[0]) {
      assert (a + b)[0] == a[0];
      assert (a + b)[1..] == a[1..] + b;
      WordsAppend(a[1..], b);
      assert Words(a + b) == Words(a[1..] + b);
    } else {
      var n := TokenEnd(a);
      WordsAfterToken(a, b);
      WordsAppend(a[n..], b);
    }
  }

  /** A token that ends inside `a` is the first word of `a + b`. */
  lemma WordsAfterToken(a: String, b: String)
    requires a != [] && !IsSpace(a[0]) && IsSpace(a[|a| - 1])
    ensures TokenEnd(a) < |a|
    ensures Words(a + b) == [a[..TokenEnd(a)]] + Words(a[TokenEnd(a)..] + b)
  {
    var n := TokenEnd(a);
    assert (a + b)[0] == a[0];
    TokenEndAppend(a, b);
    assert (a + b)[..n] == a[..n];
    assert (a + b)[n..] == a[n..] + b;
  }

  /** A word followed by a white-space character splits off as one token. */
  lemma WordThenSpace(w: String, c: char)
    requires IsWord(w) && IsSpace(c)
    ensures Words(w + [c]) == [w]
  {
    TokenEndOfWord(w, [c]);
    assert (w + [c])[0] == w[0] && !IsSpace(w[0]);
    assert (w + [c])[..|w|] == w;
    assert (w + [c])[|w|..] == [c];
    assert [c][1..] == [];
    assert Words([c]) == [];
  }

  lemma {:induction false} TokenEndOfWord(w: String, rest: String)
    requires IsWord(w) && rest != [] && IsSpace(rest[0])
    ensures TokenEnd(w + rest) == |w|
    decreases |w|
  {
    assert (w + rest)[1..] == w[1..] + rest;
    if |w| > 1 {
      TokenEndOfWord(w[1..], rest);
    }
  }

  /** Every line right-stripped: the word list a script reads from a file. */
  function RStripAll(lines: seq<String>): (r: seq<String>)
    ensures |r| == |lines|
    ensures forall i :: 0 <= i < |lines| ==> r[i] == RStrip(lines[i])
  {
    if lines == [] then [] else RStripAll(lines[..|lines| - 1]) + [RStrip(lines[|lines| - 1])]
  }

  /** The loop `for line in f: out.append(line.rstrip())`. */
  method RStripLines(lines: seq<String>) returns (stripped: seq<String>)
    ensures stripped == RStripAll(lines)
    ensures forall i :: 0 <= i < |lines| ==> stripped[i] == RStrip(lines[i])
  {
    stripped := [];
    var i := 0;
    while i < |lines|
      invariant 0 <= i <= |lines|
      invariant stripped == RStripAll(lines[..i])
    {
      assert lines[..i + 1][..i] == lines[..i];
      stripped := stripped + [RStrip(lines[i])];
      i := i + 1;
    }
    assert lines[..i] == lines;
  }
}
