/**
 * Confusion-set discovery (Code/gen_wordlist.py): a chain of filters over
 * the inflection lexicon that ends in a flat list of word pairs whose
 * members differ by the substitution candidate1 -> candidate2.
 *
 * The lexicon, the frequency table and the sentence table are passed in
 * as sequences (the script reads them from files); the two candidates are
 * the command-line arguments `c1` and `c2`.
 */
module Wordlist {
  import opened Seqs
  import opened Text

  /** One row of a CSV/TSV file, split into fields. */
  type Row = seq<String>

  // ---------------------------------------------------------------------
  // Specification functions

  /** The first column of the frequency table; every row needs a field 0. */
  function FirstColumn(rows: seq<Row>): (col: seq<String>)
    requires forall i :: 0 <= i < |rows| ==> rows[i] != []
    ensures |col| == |rows|
    ensures forall i :: 0 <= i < |rows| ==> col[i] == rows[i][0]
  {
    if rows == [] then [] else FirstColumn(rows[..|rows| - 1]) + [rows[|rows| - 1][0]]
  }

  /** The words that contain `c1` as a substring, in order. */
  function WithSubstring(words: seq<String>, c1: String): (r: seq<String>)
    ensures forall x :: x in r <==> x in words && Contains(x, c1)
  {
    if words == [] then []
    else
      var init := words[..|words| - 1];
      var w := words[|words| - 1];
      assert words == init + [w];
      WithSubstring(init, c1) + (if Contains(w, c1) then [w] else [])
  }

  /** The real words of the row `row` among `reals`, in the order of `reals`;
      then concatenated over all sentence rows: the order in which
      `check_sent` meets its hits. */
  function Hits(rows: seq<Row>, reals: seq<String>): seq<String> {
    if rows == [] then [] else Hits(rows[..|rows| - 1], reals) + FilterIn(reals, rows[|rows| - 1])
  }

  /** `w` is a field of some sentence row. */
  predicate InSomeRow(rows: seq<Row>, w: String) {
    exists i :: 0 <= i < |rows| && w in rows[i]
  }

  /** `cslist` of `check_things`: each word, followed by its counterpart
      (candidate2 replaced back by candidate1) when that counterpart is one of
      the candidate-1 words. */
  function Expand(words: seq<String>, cand1words: seq<String>, c1: String, c2: String): seq<String> {
    if words == [] then []
    else
      var w := words[|words| - 1];
      var back := ReplaceFirst(w, c2, c1);
      Expand(words[..|words| - 1], cand1words, c1, c2) + [w] + (if back in cand1words then [back] else [])
  }

  lemma ExpandSnoc(words: seq<String>, w: String, cand1words: seq<String>, c1: String, c2: String)
    ensures Expand(words + [w], cand1words, c1, c2) ==
            Expand(words, cand1words, c1, c2) + [w] +
            (if ReplaceFirst(w, c2, c1) in cand1words then [ReplaceFirst(w, c2, c1)] else [])
  {
    assert (words + [w])[..|words|] == words;
  }

  /** The pair check of `check_things` after it has looked at positions
      0 .. n-1: position i contributes `cs[i], cs[i+1]` when `cs[i+1]` is
      `cs[i]` with candidate2 replaced back by candidate1. The index moves on
      by one, not by two. */
  function AdjacentPairs(cs: seq<String>, c1: String, c2: String, n: nat): (r: seq<String>)
    requires n == 0 || n < |cs|
    ensures |r| % 2 == 0
    ensures forall k :: 0 <= k < |r| / 2 ==> r[2 * k + 1] == ReplaceFirst(r[2 * k], c2, c1)
    ensures forall k :: 0 <= k < |r| / 2 ==>
              exists i :: 0 <= i < n && r[2 * k] == cs[i] && r[2 * k + 1] == cs[i + 1]
  {
    if n == 0 then []
    else
      var prev := AdjacentPairs(cs, c1, c2, n - 1);
      if cs[n] == ReplaceFirst(cs[n - 1], c2, c1) then
        var r := prev + [cs[n - 1], cs[n]];
        assert forall k :: 0 <= k < |prev| / 2 ==> r[2 * k] == prev[2 * k] && r[2 * k + 1] == prev[2 * k + 1];
        assert r[|prev|] == cs[n - 1] && r[|prev| + 1] == cs[n];
        r
      else prev
  }

  /** `a` is followed by `b` somewhere in `cs`. */
  predicate Adjacent(cs: seq<String>, a: String, b: String) {
    exists i :: 0 <= i < |cs| - 1 && a == cs[i] && b == cs[i + 1]
  }

  /** The whole pair check over the de-duplicated list. */
  function PairCheck(cs: seq<String>, c1: String, c2: String): seq<String> {
    AdjacentPairs(cs, c1, c2, if cs == [] then 0 else |cs| - 1)
  }

  // ---------------------------------------------------------------------
  // The script's functions

  /** `grab_MII_words`: every lexicon line right-stripped and lower-cased,
      one entry per line, in order. */
  method GrabMiiWords(lines: seq<String>) returns (allWords: seq<String>)
    ensures |allWords| == |lines|
    ensures forall i :: 0 <= i < |lines| ==> allWords[i] == Lower(RStrip(lines[i]))
  {
    allWords := [];
    var i := 0;
    while i < |lines|
      invariant 0 <= i <= |lines|
      invariant |allWords| == i
      invariant forall k :: 0 <= k < i ==> allWords[k] == Lower(RStrip(lines[k]))
    {
      var word := RStrip(lines[i]);
      word := Lower(word);
      allWords := allWords + [word];
      i := i + 1;
    }
  }

  /** `word_in_allfreq`: the lexicon words that occur in the first column of
      the frequency table, in lexicon order with repeats kept. An empty row
      (a blank line of the file) makes `row[0]` raise IndexError: `None`. */
  method WordInAllfreq(allWords: seq<String>, freqRows: seq<Row>) returns (actual: Option<seq<String>>)
    ensures actual.None? <==> exists i :: 0 <= i < |freqRows| && freqRows[i] == []
    ensures actual.Some? ==> actual.value == FilterIn(allWords, FirstColumn(freqRows))
    ensures actual.Some? ==> forall w :: w in actual.value <==> w in allWords && w in FirstColumn(freqRows)
  {
    var freqwords := [];
    var r := 0;
    while r < |freqRows|
      invariant 0 <= r <= |freqRows|
      invariant forall i :: 0 <= i < r ==> freqRows[i] != []
      invariant freqwords == FirstColumn(freqRows[..r])
    {
      if freqRows[r] == [] {
        return None;
      }
      assert freqRows[..r + 1][..r] == freqRows[..r];
      freqwords := freqwords + [freqRows[r][0]];
      r := r + 1;
    }
    assert freqRows[..r] == freqRows;
    var result := [];
    var i := 0;
    while i < |allWords|
      invariant 0 <= i <= |allWords|
      invariant result == FilterIn(allWords[..i], freqwords)
    {
      FilterInSnoc(allWords[..i], allWords[i], freqwords);
      assert allWords[..i + 1] == allWords[..i] + [allWords[i]];
      if allWords[i] in freqwords {
        result := result + [allWords[i]];
      }
      i := i + 1;
    }
    assert allWords[..i] == allWords;
    forall w ensures w in result <==> w in allWords && w in freqwords {
      FilterInMembers(allWords, freqwords, w);
    }
    actual := Some(result);
  }

  /** `find_candidate1`: exactly the attested words that contain `c1`, in order. */
  method FindCandidate1(actualWords: seq<String>, c1: String) returns (cand1words: seq<String>)
    ensures cand1words == WithSubstring(actualWords, c1)
    ensures forall w :: w in cand1words <==> w in actualWords && Contains(w, c1)
  {
    cand1words := [];
    var i := 0;
    while i < |actualWords|
      invariant 0 <= i <= |actualWords|
      invariant cand1words == WithSubstring(actualWords[..i], c1)
    {
      assert actualWords[..i + 1][..i] == actualWords[..i];
      if Contains(actualWords[i], c1) {
        cand1words := cand1words + [actualWords[i]];
      }
      i := i + 1;
    }
    assert actualWords[..i] == actualWords;
  }

  /** `check_candidate2`: two variants per candidate-1 word, the first
      occurrence of `c1` replaced by `c2`, and the reverse/replace/reverse
      variant, which replaces the rightmost occurrence of reversed `c1` by
      reversed `c2` (for one-character candidates: the rightmost `c1`). */
  method CheckCandidate2(cand1words: seq<String>, c1: String, c2: String) returns (wordList: seq<String>)
    ensures |wordList| == 2 * |cand1words|
    ensures forall k :: 0 <= k < |cand1words| ==>
              wordList[2 * k] == ReplaceFirst(cand1words[k], c1, c2)
    ensures forall k :: 0 <= k < |cand1words| ==>
              wordList[2 * k + 1] == Reverse(ReplaceFirst(Reverse(cand1words[k]), c1, c2))
    ensures forall k :: 0 <= k < |cand1words| ==>
              wordList[2 * k + 1] == ReplaceLast(cand1words[k], Reverse(c1), Reverse(c2))
  {
    wordList := [];
    var i := 0;
    while i < |cand1words|
      invariant 0 <= i <= |cand1words|
      invariant |wordList| == 2 * i
      invariant forall k :: 0 <= k < i ==>
                  wordList[2 * k] == ReplaceFirst(cand1words[k], c1, c2) &&
                  wordList[2 * k + 1] == Reverse(ReplaceFirst(Reverse(cand1words[k]), c1, c2))
    {
      var word := cand1words[i];
      var newword := ReplaceFirst(word, c1, c2);
      var newwordBackwards := ReplaceFirst(Reverse(word), c1, c2);
      newwordBackwards := Reverse(newwordBackwards);
      wordList := wordList + [newword] + [newwordBackwards];
      i := i + 1;
    }
    forall k | 0 <= k < |cand1words|
      ensures wordList[2 * k + 1] == ReplaceLast(cand1words[k], Reverse(c1), Reverse(c2))
    {
      BackwardReplaceIsReplaceLast(cand1words[k], c1, c2);
    }
  }

  /** `check_if_real_word`: the lexicon words (in lexicon order, repeats
      kept) that are among the generated variants. The script walks the
      module-level lexicon `all_words`, passed in here. */
  method CheckIfRealWord(wordList: seq<String>, allWords: seq<String>) returns (realWords: seq<String>)
    ensures realWords == FilterIn(allWords, wordList)
    ensures forall w :: w in realWords <==> w in allWords && w in wordList
  {
    realWords := [];
    var i := 0;
    while i < |allWords|
      invariant 0 <= i <= |allWords|
      invariant realWords == FilterIn(allWords[..i], wordList)
    {
      FilterInSnoc(allWords[..i], allWords[i], wordList);
      assert allWords[..i + 1] == allWords[..i] + [allWords[i]];
      if allWords[i] in wordList {
        realWords := realWords + [allWords[i]];
      }
      i := i + 1;
    }
    assert allWords[..i] == allWords;
    forall w ensures w in realWords <==> w in allWords && w in wordList {
      FilterInMembers(allWords, wordList, w);
    }
  }

  lemma {:induction false} HitsMembers(rows: seq<Row>, reals: seq<String>, w: String)
    ensures w in Hits(rows, reals) <==> w in reals && InSomeRow(rows, w)
  {
    if rows != [] {
      var init := rows[..|rows| - 1];
      HitsMembers(init, reals, w);
      FilterInMembers(reals, rows[|rows| - 1], w);
      if InSomeRow(rows, w) && !(w in rows[|rows| - 1]) {
        var i :| 0 <= i < |rows| && w in rows[i];
        assert init[i] == rows[i];
      }
      if InSomeRow(init, w) {
        var i :| 0 <= i < |init| && w in init[i];
        assert rows[i] == init[i];
      }
    }
  }

  lemma HitsStep(rows: seq<Row>, reals: seq<String>, r: nat)
    requires r < |rows|
    ensures Hits(rows[..r + 1], reals) == Hits(rows[..r], reals) + FilterIn(reals, rows[r])
  {
    assert rows[..r + 1][..r] == rows[..r];
  }

  lemma RowHitStep(prefix: seq<String>, reals: seq<String>, j: nat, row: Row)
    requires j < |reals|
    ensures reals[j] in row ==>
              prefix + FilterIn(reals[..j + 1], row) == (prefix + FilterIn(reals[..j], row)) + [reals[j]]
    ensures reals[j] !in row ==>
              prefix + FilterIn(reals[..j + 1], row) == prefix + FilterIn(reals[..j], row)
  {
    FilterInSnoc(reals[..j], reals[j], row);
    assert reals[..j + 1] == reals[..j] + [reals[j]];
    if reals[j] !in row {
      assert FilterIn(reals[..j], row) + [] == FilterIn(reals[..j], row);
    }
  }

  /** `check_sent`: the real words that are a field of some sentence row,
      each once, in the order the row-by-row scan first meets them. */
  method CheckSent(realWords: seq<String>, rows: seq<Row>) returns (words: seq<String>)
    ensures words == Dedup(Hits(rows, realWords))
    ensures NoDup(words)
    ensures forall w :: w in words <==> w in realWords && InSomeRow(rows, w)
  {
    words := [];
    var r := 0;
    while r < |rows|
      invariant 0 <= r <= |rows|
      invariant words == Dedup(Hits(rows[..r], realWords))
    {
      var row := rows[r];
      ghost var prefix := Hits(rows[..r], realWords);
      var j := 0;
      assert prefix + FilterIn(realWords[..j], row) == prefix;
      while j < |realWords|
        invariant 0 <= j <= |realWords|
        invariant words == Dedup(prefix + FilterIn(realWords[..j], row))
      {
        var w := realWords[j];
        RowHitStep(prefix, realWords, j, row);
        DedupSnoc(prefix + FilterIn(realWords[..j], row), w);
        if w in row {
          if w !in words {
            words := words + [w];
          }
        }
        j := j + 1;
      }
      assert realWords[..j] == realWords;
      HitsStep(rows, realWords, r);
      r := r + 1;
    }
    assert rows[..r] == rows;
    forall w ensures w in words <==> w in realWords && InSomeRow(rows, w) {
      DedupMembers(Hits(rows, realWords), w);
      HitsMembers(rows, realWords, w);
    }
  }

  /** First step of `check_things`: each word followed by its counterpart,
      when the counterpart is a candidate-1 word. */
  method Counterparts(words: seq<String>, cand1words: seq<String>, c1: String, c2: String)
    returns (cslist: seq<String>)
    ensures cslist == Expand(words, cand1words, c1, c2)
    ensures forall x :: x in cslist ==> x in words || x in cand1words
  {
    cslist := [];
    var n := 0;
    while n < |words|
      invariant 0 <= n <= |words|
      invariant cslist == Expand(words[..n], cand1words, c1, c2)
    {
      var w := words[n];
      ExpandSnoc(words[..n], w, cand1words, c1, c2);
      assert words[..n + 1] == words[..n] + [w];
      cslist := cslist + [w];
      var newword := ReplaceFirst(w, c2, c1);
      if newword in cand1words {
        cslist := cslist + [newword];
      }
      n := n + 1;
    }
    assert words[..n] == words;
    forall x | x in cslist ensures x in words || x in cand1words {
      ExpandMembers(words, cand1words, c1, c2, x);
    }
  }

  /** Second step of `check_things`: one copy of each word, in the order
      the words are first seen. */
  method DropRepeats(cslist: seq<String>) returns (csList: seq<String>)
    ensures csList == Dedup(cslist)
    ensures NoDup(csList)
    ensures forall x :: x in csList <==> x in cslist
  {
    csList := [];
    var m := 0;
    while m < |cslist|
      invariant 0 <= m <= |cslist|
      invariant csList == Dedup(cslist[..m])
    {
      DedupSnoc(cslist[..m], cslist[m]);
      assert cslist[..m + 1] == cslist[..m] + [cslist[m]];
      if cslist[m] !in csList {
        csList := csList + [cslist[m]];
      }
      m := m + 1;
    }
    assert cslist[..m] == cslist;
    forall x ensures x in csList <==> x in cslist {
      DedupMembers(cslist, x);
    }
  }

  /** Last step of `check_things`: the adjacent-pair check, moving on by
      one position at a time. Every kept pair is adjacent in `csList` and its
      second word is the first with candidate2 replaced back by candidate1. */
  method PairPass(csList: seq<String>, c1: String, c2: String) returns (csFinal: seq<String>)
    ensures csFinal == PairCheck(csList, c1, c2)
    ensures |csFinal| % 2 == 0
    ensures forall k :: 0 <= k < |csFinal| / 2 ==> csFinal[2 * k + 1] == ReplaceFirst(csFinal[2 * k], c2, c1)
    ensures forall k :: 0 <= k < |csFinal| / 2 ==> Adjacent(csList, csFinal[2 * k], csFinal[2 * k + 1])
  {
    csFinal := [];
    var i := 0;
    while i <= |csList| - 2
      invariant 0 <= i && (i == 0 || i < |csList|)
      invariant i <= if csList == [] then 0 else |csList| - 1
      invariant csFinal == AdjacentPairs(csList, c1, c2, i)
    {
      var cand1 := csList[i];
      if csList[i + 1] == ReplaceFirst(cand1, c2, c1) {
        csFinal := csFinal + [csList[i]];
        csFinal := csFinal + [csList[i + 1]];
      }
      i := i + 1;
    }
    assert i == if csList == [] then 0 else |csList| - 1;
    assert csFinal == PairCheck(csList, c1, c2);
    forall k | 0 <= k < |csFinal| / 2
      ensures Adjacent(csList, csFinal[2 * k], csFinal[2 * k + 1])
    {
      var j :| 0 <= j < i && csFinal[2 * k] == csList[j] && csFinal[2 * k + 1] == csList[j + 1];
    }
  }

  /** `check_things`: add the counterparts, drop repeats keeping the
      first-seen order, then keep the adjacent pairs whose second word is the
      first with candidate2 replaced back by candidate1. */
  method CheckThings(words: seq<String>, cand1words: seq<String>, c1: String, c2: String)
    returns (csFinal: seq<String>)
    ensures csFinal == PairCheck(Dedup(Expand(words, cand1words, c1, c2)), c1, c2)
    ensures |csFinal| % 2 == 0
    ensures forall k :: 0 <= k < |csFinal| / 2 ==> csFinal[2 * k + 1] == ReplaceFirst(csFinal[2 * k], c2, c1)
    ensures forall x :: x in csFinal ==> x in words || x in cand1words
  {
    var cslist := Counterparts(words, cand1words, c1, c2);
    var csList := DropRepeats(cslist);
    csFinal := PairPass(csList, c1, c2);
    forall x | x in csFinal ensures x in words || x in cand1words {
      PairCheckMembers(csList, c1, c2, x);
    }
  }

  /** With candidates "i" and "y", the list "yy", "iy", "ii" gives the pairs
      (yy, iy) and (iy, ii): because the check moves on by one position, a
      word can end up in two pairs. */
  lemma PairCheckCanRepeatAWord()
    ensures PairCheck(["yy", "iy", "ii"], "i", "y") == ["yy", "iy", "iy", "ii"]
  {
    assert ReplaceFirst("y", "y", "i") == "i";
    assert ReplaceFirst("yy", "y", "i") == "iy";
    assert ReplaceFirst("y", "y", "i") == "i";
    assert ReplaceFirst("iy", "y", "i") == "ii";
  }

  lemma {:induction false} ExpandMembers(words: seq<String>, cand1words: seq<String>, c1: String, c2: String, x: String)
    requires x in Expand(words, cand1words, c1, c2)
    ensures x in words || x in cand1words
  {
    if words != [] {
      var init := words[..|words| - 1];
      if x in Expand(init, cand1words, c1, c2) {
        ExpandMembers(init, cand1words, c1, c2, x);
        if x in init {
          assert init[FirstIndex(init, x)] == words[FirstIndex(init, x)];
        }
      }
    }
  }

  lemma PairCheckMembers(cs: seq<String>, c1: String, c2: String, w: String)
    requires w in PairCheck(cs, c1, c2)
    ensures w in cs
  {
    var r := PairCheck(cs, c1, c2);
    var j :| 0 <= j < |r| && r[j] == w;
    var k := j / 2;
    assert 0 <= k < |r| / 2;
    var i :| 0 <= i < |cs| - 1 && r[2 * k] == cs[i] && r[2 * k + 1] == cs[i + 1];
  }

  /** The chain of lines 109-115: lexicon, attested words, candidate-1
      words, variants, real words, words with sentence examples, pairs.
      The result is a flat list of pairs whose second word is the first with
      candidate2 replaced back by candidate1; every word of it is a lexicon
      word, and it is either an attested candidate-1 word or a variant of one
      that occurs in some sentence row. */
  method Discover(lexiconLines: seq<String>, freqRows: seq<Row>, sentRows: seq<Row>, c1: String, c2: String)
    returns (csFinal: Option<seq<String>>)
    ensures csFinal.None? <==> exists i :: 0 <= i < |freqRows| && freqRows[i] == []
    ensures csFinal.Some? ==> |csFinal.value| % 2 == 0
    ensures csFinal.Some? ==> forall k :: 0 <= k < |csFinal.value| / 2 ==>
              csFinal.value[2 * k + 1] == ReplaceFirst(csFinal.value[2 * k], c2, c1)
    ensures csFinal.Some? ==> forall w :: w in csFinal.value ==> LexiconWord(lexiconLines, w)
    ensures csFinal.Some? ==> forall w :: w in csFinal.value ==>
              || Candidate1Word(lexiconLines, freqRows, c1, w)
              || (InSomeRow(sentRows, w) && exists c :: Candidate1Word(lexiconLines, freqRows, c1, c) && VariantOf(w, c, c1, c2))
  {
    var allWords := GrabMiiWords(lexiconLines);
    var actual := WordInAllfreq(allWords, freqRows);
    if actual.None? {
      return None;
    }
    var cand1words := FindCandidate1(actual.value, c1);
    var wordList := CheckCandidate2(cand1words, c1, c2);
    var realWords := CheckIfRealWord(wordList, allWords);
    var words := CheckSent(realWords, sentRows);
    var pairs := CheckThings(words, cand1words, c1, c2);
    CandidatesAttested(lexiconLines, freqRows, c1, allWords, actual.value, cand1words);
    WordsAreVariants(lexiconLines, freqRows, sentRows, c1, c2, allWords, cand1words, wordList, words);
    csFinal := Some(pairs);
  }

  /** The candidate-1 words are attested lexicon words containing `c1`. */
  lemma CandidatesAttested(lexiconLines: seq<String>, freqRows: seq<Row>, c1: String,
                           allWords: seq<String>, actual: seq<String>, cand1words: seq<String>)
    requires |allWords| == |lexiconLines|
    requires forall i :: 0 <= i < |lexiconLines| ==> allWords[i] == Lower(RStrip(lexiconLines[i]))
    requires forall i :: 0 <= i < |freqRows| ==> freqRows[i] != []
    requires forall w :: w in actual <==> w in allWords && w in FirstColumn(freqRows)
    requires forall w :: w in cand1words <==> w in actual && Contains(w, c1)
    ensures forall c :: c in cand1words ==> Candidate1Word(lexiconLines, freqRows, c1, c)
  {
    forall c | c in cand1words
      ensures Candidate1Word(lexiconLines, freqRows, c1, c)
    {
      var i :| 0 <= i < |allWords| && allWords[i] == c;
      var r :| 0 <= r < |freqRows| && FirstColumn(freqRows)[r] == c;
    }
  }

  /** The words with sentence examples are lexicon words that occur in a
      sentence row and are variants of candidate-1 words. */
  lemma WordsAreVariants(lexiconLines: seq<String>, freqRows: seq<Row>, sentRows: seq<Row>, c1: String, c2: String,
                         allWords: seq<String>, cand1words: seq<String>, wordList: seq<String>, words: seq<String>)
    requires |allWords| == |lexiconLines|
    requires forall i :: 0 <= i < |lexiconLines| ==> allWords[i] == Lower(RStrip(lexiconLines[i]))
    requires forall c :: c in cand1words ==> Candidate1Word(lexiconLines, freqRows, c1, c)
    requires |wordList| == 2 * |cand1words|
    requires forall k :: 0 <= k < |cand1words| ==> wordList[2 * k] == ReplaceFirst(cand1words[k], c1, c2)
    requires forall k :: 0 <= k < |cand1words| ==>
               wordList[2 * k + 1] == Reverse(ReplaceFirst(Reverse(cand1words[k]), c1, c2))
    requires forall w :: w in words ==> w in allWords && w in wordList && InSomeRow(sentRows, w)
    ensures forall w :: w in words ==> LexiconWord(lexiconLines, w) && InSomeRow(sentRows, w)
    ensures forall w :: w in words ==>
              exists c :: Candidate1Word(lexiconLines, freqRows, c1, c) && VariantOf(w, c, c1, c2)
  {
    forall w | w in words
      ensures LexiconWord(lexiconLines, w)
      ensures exists c :: Candidate1Word(lexiconLines, freqRows, c1, c) && VariantOf(w, c, c1, c2)
    {
      var i :| 0 <= i < |allWords| && allWords[i] == w;
      var j :| 0 <= j < |wordList| && wordList[j] == w;
      var k := j / 2;
      assert j == 2 * k || j == 2 * k + 1;
      assert VariantOf(w, cand1words[k], c1, c2);
    }
  }

  /** `w` is a line of the lexicon, right-stripped and lower-cased. */
  predicate LexiconWord(lexiconLines: seq<String>, w: String) {
    exists i :: 0 <= i < |lexiconLines| && w == Lower(RStrip(lexiconLines[i]))
  }

  /** `w` is field 0 of some row of the frequency table. */
  predicate Attested(freqRows: seq<Row>, w: String) {
    exists i :: 0 <= i < |freqRows| && freqRows[i] != [] && freqRows[i][0] == w
  }

  /** A word `find_candidate1` keeps: an attested lexicon word containing `c1`. */
  predicate Candidate1Word(lexiconLines: seq<String>, freqRows: seq<Row>, c1: String, w: String) {
    LexiconWord(lexiconLines, w) && Attested(freqRows, w) && Contains(w, c1)
  }

  /** One of the two variants `check_candidate2` makes of `c`. */
  predicate VariantOf(w: String, c: String, c1: String, c2: String) {
    w == ReplaceFirst(c, c1, c2) || w == Reverse(ReplaceFirst(Reverse(c), c1, c2))
  }
}
