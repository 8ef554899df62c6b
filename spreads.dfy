/**
 * Confusion-set profiling (Code/gen_spreads.py): for a word list whose
 * consecutive lines form pairs, look up the frequency rows of every word,
 * total them per word form, pair the words up and classify each pair's
 * part-of-speech tag sets as disjoint and/or identical.
 *
 * The frequency table (allfreq.tsv, rows `form, lemma, tag, count`) is
 * passed in as parsed records.
 */
module Spreads {
  import opened Seqs
  import opened Text

  /** One row of the 4-column frequency table. */
  datatype FreqRow = FreqRow(form: String, headword: String, tag: String, count: int)

  /** The row recorded for a word the table does not know: `[w, "0", "n/a", "0"]`. */
  function Placeholder(w: String): FreqRow {
    FreqRow(w, "0", "n/a", 0)
  }

  /** One word's profile: `[key, total, tag1, count1, tag2, count2, ...]`. */
  datatype Entry = Entry(form: String, total: int, tail: seq<(String, int)>)

  /** A pair with its two flags, as zipped by `identical_or_disjoint`. */
  datatype Judged = Judged(pair: (Entry, Entry), disjoint: String, identical: String)

  /** One cell of the output CSV. */
  datatype Cell = Str(s: String) | Number(n: int) | TagCounts(tail: seq<(String, int)>)

  const Header: seq<Cell> := [
    Str("Word form"), Str("Total count"), Str("POS tags and their frequency"),
    Str("Word form"), Str("Total count"), Str("POS tags and their frequency"),
    Str("Grammatically disjoint"), Str("Grammatically identical")]

  // ---------------------------------------------------------------------
  // Specification functions

  /** The table rows for word form `w`, in table order. */
  function RowsOf(rows: seq<FreqRow>, w: String): (r: seq<FreqRow>)
    ensures forall i :: 0 <= i < |r| ==> r[i].form == w
  {
    if rows == [] then []
    else RowsOf(rows[..|rows| - 1], w) + (if rows[|rows| - 1].form == w then [rows[|rows| - 1]] else [])
  }

  /** What `collect_freqs` emits for one word. */
  function FreqsFor(w: String, rows: seq<FreqRow>): seq<FreqRow> {
    if RowsOf(rows, w) == [] then [Placeholder(w)] else RowsOf(rows, w)
  }

  /** What `collect_freqs` emits for a word list: the groups, in word-list order. */
  function CollectedFreqs(words: seq<String>, rows: seq<FreqRow>): seq<FreqRow> {
    if words == [] then []
    else CollectedFreqs(words[..|words| - 1], rows) + FreqsFor(words[|words| - 1], rows)
  }

  function Forms(rows: seq<FreqRow>): (r: seq<String>)
    ensures |r| == |rows|
    ensures forall i :: 0 <= i < |rows| ==> r[i] == rows[i].form
  {
    if rows == [] then [] else Forms(rows[..|rows| - 1]) + [rows[|rows| - 1].form]
  }

  /** Sum of the counts of the rows for form `w`. */
  function SumCounts(rows: seq<FreqRow>, w: String): int {
    if rows == [] then 0
    else SumCounts(rows[..|rows| - 1], w) + (if rows[|rows| - 1].form == w then rows[|rows| - 1].count else 0)
  }

  /** The `(tag, count)` tail of form `w`'s entry. */
  function TagCountsOf(rows: seq<FreqRow>, w: String): (r: seq<(String, int)>)
    ensures |r| == |RowsOf(rows, w)|
  {
    if rows == [] then []
    else TagCountsOf(rows[..|rows| - 1], w) +
         (if rows[|rows| - 1].form == w then [(rows[|rows| - 1].tag, rows[|rows| - 1].count)] else [])
  }

  /** The tags of form `w`, with repeats, in table order. */
  function TagsOf(rows: seq<FreqRow>, w: String): (r: seq<String>)
    ensures |r| == |RowsOf(rows, w)|
  {
    if rows == [] then []
    else TagsOf(rows[..|rows| - 1], w) + (if rows[|rows| - 1].form == w then [rows[|rows| - 1].tag] else [])
  }

  function AsSet(s: seq<String>): set<String> {
    set x | x in s
  }

  /** The disjoint flag: "False" when the tag sets share a tag. */
  function DisjointFlag(a: seq<String>, b: seq<String>): String {
    if |AsSet(a) * AsSet(b)| > 0 then "False" else "True"
  }

  /** The identical flag: "True" when the tag sets are equal. */
  function IdenticalFlag(a: seq<String>, b: seq<String>): String {
    if AsSet(a) == AsSet(b) then "True" else "False"
  }

  // ---------------------------------------------------------------------
  // Lemmas about the specification

  lemma {:induction false} RowsOfMembers(rows: seq<FreqRow>, w: String)
    ensures RowsOf(rows, w) == [] <==> w !in Forms(rows)
  {
    if rows != [] {
      RowsOfMembers(rows[..|rows| - 1], w);
      assert Forms(rows) == Forms(rows[..|rows| - 1]) + [rows[|rows| - 1].form];
    }
  }

  /** `collect_freqs` for one word: all its table rows in table order when
      it has any, otherwise exactly one placeholder; never empty, and every
      row emitted carries the word. */
  lemma FreqsForShape(w: String, rows: seq<FreqRow>)
    ensures w in Forms(rows) ==> FreqsFor(w, rows) == RowsOf(rows, w)
    ensures w !in Forms(rows) ==> FreqsFor(w, rows) == [FreqRow(w, "0", "n/a", 0)]
    ensures |FreqsFor(w, rows)| >= 1
    ensures forall i :: 0 <= i < |FreqsFor(w, rows)| ==> FreqsFor(w, rows)[i].form == w
  {
    RowsOfMembers(rows, w);
  }

  lemma {:induction false} SumCountsAppend(a: seq<FreqRow>, b: seq<FreqRow>, w: String)
    ensures SumCounts(a + b, w) == SumCounts(a, w) + SumCounts(b, w)
  {
    if b != [] {
      assert (a + b)[..|a + b| - 1] == a + b[..|b| - 1];
      SumCountsAppend(a, b[..|b| - 1], w);
    } else {
      assert a + b == a;
    }
  }

  lemma {:induction false} SumCountsOfRowsOf(rows: seq<FreqRow>, v: String, w: String)
    ensures SumCounts(RowsOf(rows, v), w) == if v == w then SumCounts(rows, w) else 0
  {
    if rows != [] {
      var init := rows[..|rows| - 1];
      var last := rows[|rows| - 1];
      SumCountsOfRowsOf(init, v, w);
      SumCountsAppend(RowsOf(init, v), if last.form == v then [last] else [], w);
      assert SumCounts([last], w) == (if last.form == w then last.count else 0) by {
        assert [last][..0] == [];
      }
    }
  }

  lemma {:induction false} SumCountsWithoutRows(rows: seq<FreqRow>, w: String)
    requires RowsOf(rows, w) == []
    ensures SumCounts(rows, w) == 0
  {
    if rows != [] {
      SumCountsWithoutRows(rows[..|rows| - 1], w);
    }
  }

  /** The group `collect_freqs` emits for `v` contributes to the total of
      `w` the table's total for `w` when `v` is `w` (0 for a placeholder,
      since then the table has no row for `w`), and nothing otherwise. */
  lemma FreqsForTotal(v: String, rows: seq<FreqRow>, w: String)
    ensures SumCounts(FreqsFor(v, rows), w) == if v == w then SumCounts(rows, w) else 0
  {
    if RowsOf(rows, v) == [] {
      assert SumCounts([Placeholder(v)], w) == 0 by {
        assert [Placeholder(v)][..0] == [];
      }
      if v == w {
        SumCountsWithoutRows(rows, w);
      }
    } else {
      SumCountsOfRowsOf(rows, v, w);
    }
  }

  /** The total `freqdict` computes for a word of the list is the table's
      total for it once per occurrence of the word in the list (a word
      listed twice has its rows collected, and counted, twice; a word the
      table lacks totals 0). */
  lemma {:induction false} CollectedTotal(words: seq<String>, rows: seq<FreqRow>, w: String)
    ensures SumCounts(CollectedFreqs(words, rows), w) == Count(words, w) * SumCounts(rows, w)
  {
    if words != [] {
      var init := words[..|words| - 1];
      var v := words[|words| - 1];
      var total := SumCounts(rows, w);
      var c := Count(init, w);
      CollectedTotal(init, rows, w);
      SumCountsAppend(CollectedFreqs(init, rows), FreqsFor(v, rows), w);
      FreqsForTotal(v, rows, w);
      if v == w {
        assert Count(words, w) == c + 1;
        MulSucc(c, total);
      } else {
        assert Count(words, w) == c;
      }
    }
  }

  lemma {:induction false} CollectedForms(words: seq<String>, rows: seq<FreqRow>, w: String)
    ensures w in Forms(CollectedFreqs(words, rows)) <==> w in words
  {
    if words != [] {
      var init := words[..|words| - 1];
      var v := words[|words| - 1];
      CollectedFormsStep(words, rows);
      CollectedForms(init, rows, w);
      FreqsForForms(v, rows, w);
      MembersStep(Forms(CollectedFreqs(words, rows)), Forms(CollectedFreqs(init, rows)), Forms(FreqsFor(v, rows)), words, w);
    } else {
      CollectedNothing(words, rows);
    }
  }

  lemma CollectedNothing(words: seq<String>, rows: seq<FreqRow>)
    requires words == []
    ensures Forms(CollectedFreqs(words, rows)) == []
  {
  }

  lemma MembersStep(f: seq<String>, fa: seq<String>, fb: seq<String>, words: seq<String>, w: String)
    requires words != [] && f == fa + fb
    requires w in fa <==> w in words[..|words| - 1]
    requires w in fb <==> w == words[|words| - 1]
    ensures w in f <==> w in words
  {
    assert words == words[..|words| - 1] + [words[|words| - 1]];
  }

  lemma CollectedFormsStep(words: seq<String>, rows: seq<FreqRow>)
    requires words != []
    ensures Forms(CollectedFreqs(words, rows)) ==
            Forms(CollectedFreqs(words[..|words| - 1], rows)) + Forms(FreqsFor(words[|words| - 1], rows))
  {
    FormsAppend(CollectedFreqs(words[..|words| - 1], rows), FreqsFor(words[|words| - 1], rows));
  }

  lemma FreqsForForms(v: String, rows: seq<FreqRow>, w: String)
    ensures w in Forms(FreqsFor(v, rows)) <==> w == v
  {
    FreqsForShape(v, rows);
    var b := FreqsFor(v, rows);
    assert Forms(b)[0] == v;
  }

  /** The flags say what their names promise. */
lemma FlagsMeaning(a: seq<String>, b: seq<String>)
    ensures DisjointFlag(a, b) == "True" <==> forall t :: t in a ==> t !in b
    ensures IdenticalFlag(a, b) == "True" <==> forall t :: t in a <==> t in b
  {
    if forall t :: t in a ==> t !in b {
      assert AsSet(a) * AsSet(b) == {};
    } else {
      var t :| t in a && t in b;
      assert t in AsSet(a) * AsSet(b);
    }
    if forall t :: t in a <==> t in b {
      assert AsSet(a) == AsSet(b);
    } else {
      var t :| !(t in a <==> t in b);
      assert t in AsSet(a) <==> t in a;
      assert t in AsSet(b) <==> t in b;
    }
  }

  /** Both flags are "True" only for two empty tag lists. */
  lemma FlagsExclusive(a: seq<String>, b: seq<String>)
    requires a != [] || b != []
    ensures !(DisjointFlag(a, b) == "True" && IdenticalFlag(a, b) == "True")
  {
    FlagsMeaning(a, b);
    if a != [] {
      assert a[0] in a;
    } else {
      assert b[0] in b;
    }
  }

  // ---------------------------------------------------------------------
  // The script's functions

  /** `collect_words`: one right-stripped entry per line, in order. */
  method CollectWords(lines: seq<String>) returns (wordlist: seq<String>)
    ensures wordlist == RStripAll(lines)
    ensures forall i :: 0 <= i < |lines| ==> wordlist[i] == RStrip(lines[i])
  {
    wordlist := RStripLines(lines);
  }

  /** `collect_freqs`: for each word, the table rows of that word (the `found`
      flag records whether there were any), or a placeholder row. */
  method CollectFreqs(wordlist: seq<String>, rows: seq<FreqRow>) returns (freqlist: seq<FreqRow>)
    ensures freqlist == CollectedFreqs(wordlist, rows)
    ensures forall w :: w in Forms(freqlist) <==> w in wordlist
  {
    freqlist := [];
    var n := 0;
    while n < |wordlist|
      invariant 0 <= n <= |wordlist|
      invariant freqlist == CollectedFreqs(wordlist[..n], rows)
    {
      var w := wordlist[n];
      ghost var before := freqlist;
      var found;
      freqlist, found := AddRowsOf(freqlist, rows, w);
      if !found {
        freqlist := freqlist + [Placeholder(w)];
      }
      assert freqlist == before + FreqsFor(w, rows);
      assert wordlist[..n + 1][..n] == wordlist[..n];
      n := n + 1;
    }
    assert wordlist[..n] == wordlist;
    forall w ensures w in Forms(freqlist) <==> w in wordlist {
      CollectedForms(wordlist, rows, w);
    }
  }

  /** The inner loop of `collect_freqs`: append the table rows of `w`, and
      report whether there were any. */
  method AddRowsOf(freqlist: seq<FreqRow>, rows: seq<FreqRow>, w: String)
    returns (freqlist': seq<FreqRow>, found: bool)
    ensures freqlist' == freqlist + RowsOf(rows, w)
    ensures found <==> RowsOf(rows, w) != []
  {
    freqlist' := freqlist;
    found := false;
    var r := 0;
    while r < |rows|
      invariant 0 <= r <= |rows|
      invariant freqlist' == freqlist + RowsOf(rows[..r], w)
      invariant found <==> RowsOf(rows[..r], w) != []
    {
      assert rows[..r + 1][..r] == rows[..r];
      if rows[r].form == w {
        AppendAssoc(freqlist, RowsOf(rows[..r], w), [rows[r]]);
        freqlist' := freqlist' + [rows[r]];
        found := true;
      }
      r := r + 1;
    }
    assert rows[..r] == rows;
  }

  /** `freqdict`: the dictionary from each form to the sum of its counts,
      given as its keys in insertion (first-seen) order and its mapping. */
  method FreqDict(freqlist: seq<FreqRow>) returns (keys: seq<String>, result: map<String, int>)
    ensures keys == Dedup(Forms(freqlist))
    ensures forall k :: k in result <==> k in keys
    ensures forall k :: k in result ==> result[k] == SumCounts(freqlist, k)
  {
    keys := [];
    result := map[];
    var i := 0;
    while i < |freqlist|
      invariant 0 <= i <= |freqlist|
      invariant Totals(freqlist[..i], keys, result)
    {
      var row := freqlist[i];
      var key := row.form;
      var count := row.count;
      assert freqlist[..i + 1] == freqlist[..i] + [row];
      TotalsStep(freqlist[..i], keys, result, row);
      if key in result {
        result := result[key := result[key] + count];
      } else {
        result := result[key := count];
        keys := keys + [key];
      }
      i := i + 1;
    }
    assert freqlist[..i] == freqlist;
  }

  /** `keys` and `result` are the dictionary `freqdict` has built from `rows`. */
  ghost predicate Totals(rows: seq<FreqRow>, keys: seq<String>, result: map<String, int>) {
    && keys == Dedup(Forms(rows))
    && (forall k :: k in result <==> k in keys)
    && (forall k :: k in result ==> result[k] == SumCounts(rows, k))
  }

  /** One more row adds its count to its form's entry, creating the entry
      (at the end of the key order) when the form is new. */
  lemma TotalsStep(rows: seq<FreqRow>, keys: seq<String>, result: map<String, int>, row: FreqRow)
    requires Totals(rows, keys, result)
    ensures row.form in result ==>
              Totals(rows + [row], keys, result[row.form := result[row.form] + row.count])
    ensures row.form !in result ==>
              Totals(rows + [row], keys + [row.form], result[row.form := row.count])
  {
    FormsSnoc(rows, row);
    DedupSnoc(Forms(rows), row.form);
    if row.form in result {
      TotalsKnown(rows, keys, result, row);
    } else {
      DedupMembers(Forms(rows), row.form);
      SumCountsAbsent(rows, row.form);
      TotalsNew(rows, keys, result, row);
    }
  }

  lemma FormsSnoc(rows: seq<FreqRow>, row: FreqRow)
    ensures Forms(rows + [row]) == Forms(rows) + [row.form]
  {
    FormsAppend(rows, [row]);
    assert Forms([row]) == [row.form];
  }

  lemma TotalsKnown(rows: seq<FreqRow>, keys: seq<String>, result: map<String, int>, row: FreqRow)
    requires Totals(rows, keys, result) && row.form in result
    requires Dedup(Forms(rows + [row])) == keys
    ensures Totals(rows + [row], keys, result[row.form := result[row.form] + row.count])
  {
    var r := result[row.form := result[row.form] + row.count];
    forall k | k in r
      ensures r[k] == SumCounts(rows + [row], k)
    {
      SumCountsSnoc(rows, row, k);
    }
  }

  lemma TotalsNew(rows: seq<FreqRow>, keys: seq<String>, result: map<String, int>, row: FreqRow)
    requires Totals(rows, keys, result) && row.form !in result
    requires SumCounts(rows, row.form) == 0
    requires Dedup(Forms(rows + [row])) == keys + [row.form]
    ensures Totals(rows + [row], keys + [row.form], result[row.form := row.count])
  {
    var r := result[row.form := row.count];
    forall k | k in r
      ensures r[k] == SumCounts(rows + [row], k)
    {
      SumCountsSnoc(rows, row, k);
    }
  }

  lemma SumCountsSnoc(rows: seq<FreqRow>, row: FreqRow, k: String)
    ensures SumCounts(rows + [row], k) == SumCounts(rows, k) + if row.form == k then row.count else 0
  {
    assert (rows + [row])[..|rows|] == rows;
  }

  lemma {:induction false} SumCountsAbsent(rows: seq<FreqRow>, w: String)
    requires w !in Forms(rows)
    ensures SumCounts(rows, w) == 0
  {
    RowsOfMembers(rows, w);
    SumCountsWithoutRows(rows, w);
  }

  /** `createconfusionsets`: per key, in key order, the entry
      `[key, total, tag, count, ...]` and the list of tags; then both lists
      paired up as (0, 1), (2, 3), ... (an odd last key is dropped). */
  method CreateConfusionSets(keys: seq<String>, result: map<String, int>, freqlist: seq<FreqRow>)
    returns (zippedPos: seq<(seq<String>, seq<String>)>, zippedCs: seq<(Entry, Entry)>)
    requires forall k :: k in keys ==> k in result
    ensures |zippedPos| == |zippedCs| == |keys| / 2
    ensures forall i :: 0 <= i < |keys| / 2 ==>
              && zippedPos[i] == (TagsOf(freqlist, keys[2 * i]), TagsOf(freqlist, keys[2 * i + 1]))
              && zippedCs[i].0 == Entry(keys[2 * i], result[keys[2 * i]], TagCountsOf(freqlist, keys[2 * i]))
              && zippedCs[i].1 == Entry(keys[2 * i + 1], result[keys[2 * i + 1]], TagCountsOf(freqlist, keys[2 * i + 1]))
  {
    var totalCount: seq<Entry> := [];
    var posSet: seq<seq<String>> := [];
    var j := 0;
    while j < |keys|
      invariant 0 <= j <= |keys|
      invariant |totalCount| == |posSet| == j
      invariant forall m :: 0 <= m < j ==>
                  totalCount[m] == Entry(keys[m], result[keys[m]], TagCountsOf(freqlist, keys[m])) &&
                  posSet[m] == TagsOf(freqlist, keys[m])
    {
      var key := keys[j];
      var tail: seq<(String, int)> := [];
      var posWord: seq<String> := [];
      var r := 0;
      while r < |freqlist|
        invariant 0 <= r <= |freqlist|
        invariant tail == TagCountsOf(freqlist[..r], key)
        invariant posWord == TagsOf(freqlist[..r], key)
      {
        assert freqlist[..r + 1][..r] == freqlist[..r];
        if freqlist[r].form == key {
          tail := tail + [(freqlist[r].tag, freqlist[r].count)];
          posWord := posWord + [freqlist[r].tag];
        }
        r := r + 1;
      }
      assert freqlist[..r] == freqlist;
      totalCount := totalCount + [Entry(key, result[key], tail)];
      posSet := posSet + [posWord];
      j := j + 1;
    }
    zippedPos := PairAdjacent(posSet);
    zippedCs := PairAdjacent(totalCount);
  }

  /** `identical_or_disjoint`: the two flags of every pair, zipped with the
      pairs (zip stops at the shorter list). */
  method IdenticalOrDisjoint(pos: seq<(seq<String>, seq<String>)>, cs: seq<(Entry, Entry)>)
    returns (zippedFinal: seq<Judged>)
    ensures |zippedFinal| == if |pos| < |cs| then |pos| else |cs|
    ensures forall i :: 0 <= i < |zippedFinal| ==>
              zippedFinal[i] == Judged(cs[i], DisjointFlag(pos[i].0, pos[i].1), IdenticalFlag(pos[i].0, pos[i].1))
  {
    var gramdis: seq<String> := [];
    var gramid: seq<String> := [];
    var i := 0;
    while i < |pos|
      invariant 0 <= i <= |pos|
      invariant |gramdis| == |gramid| == i
      invariant forall m :: 0 <= m < i ==>
                  gramdis[m] == DisjointFlag(pos[m].0, pos[m].1) && gramid[m] == IdenticalFlag(pos[m].0, pos[m].1)
    {
      var pos1 := AsSet(pos[i].0);
      var pos2 := AsSet(pos[i].1);
      if |pos1 * pos2| > 0 {
        gramdis := gramdis + ["False"];
      } else {
        gramdis := gramdis + ["True"];
      }
      if pos1 == pos2 {
        gramid := gramid + ["True"];
      } else {
        gramid := gramid + ["False"];
      }
      i := i + 1;
    }
    zippedFinal := [];
    var k := 0;
    while k < |cs| && k < |gramdis|
      invariant 0 <= k <= |cs| && k <= |gramdis|
      invariant |zippedFinal| == k
      invariant forall m :: 0 <= m < k ==> zippedFinal[m] == Judged(cs[m], gramdis[m], gramid[m])
    {
      zippedFinal := zippedFinal + [Judged(cs[k], gramdis[k], gramid[k])];
      k := k + 1;
    }
  }

  /** The eight cells of one output row. */
  function RowCells(j: Judged): (cells: seq<Cell>)
    ensures |cells| == |Header| == 8
    ensures cells[0] == Str(j.pair.0.form) && cells[3] == Str(j.pair.1.form)
    ensures cells[6] == Str(j.disjoint) && cells[7] == Str(j.identical)
  {
    [Str(j.pair.0.form), Number(j.pair.0.total), TagCounts(j.pair.0.tail),
     Str(j.pair.1.form), Number(j.pair.1.total), TagCounts(j.pair.1.tail),
     Str(j.disjoint), Str(j.identical)]
  }

  /** `writeoutput`: the header and one row of eight cells per pair, in pair
      order: word, total and tag/count tail of each member, then the
      disjoint and identical flags. */
  method WriteOutput(zippedFinal: seq<Judged>, zippedCs: seq<(Entry, Entry)>) returns (table: seq<seq<Cell>>)
    requires |zippedCs| <= |zippedFinal|
    ensures |table| == |zippedCs| + 1
    ensures table[0] == Header
    ensures forall i :: 1 <= i < |table| ==> table[i] == RowCells(zippedFinal[i - 1])
  {
    var finalList: seq<seq<Cell>> := [];
    var i := 0;
    while i < |zippedCs|
      invariant 0 <= i <= |zippedCs|
      invariant |finalList| == i
      invariant forall m :: 0 <= m < i ==> finalList[m] == RowCells(zippedFinal[m])
    {
      var first := zippedFinal[i].pair.0;
      var second := zippedFinal[i].pair.1;
      var placeholderList := [Str(first.form), Number(first.total), TagCounts(first.tail)];
      placeholderList := placeholderList + [Str(second.form), Number(second.total), TagCounts(second.tail)];
      placeholderList := placeholderList + [Str(zippedFinal[i].disjoint), Str(zippedFinal[i].identical)];
      finalList := finalList + [placeholderList];
      i := i + 1;
    }
    table := [Header] + finalList;
  }

  /** The script's main block: the header, then one row per pair of
      consecutive distinct words of the list (a trailing odd word is
      dropped); every tag list comes from table rows or a placeholder, so
      no pair is both disjoint and identical. */
  method Profile(lines: seq<String>, rows: seq<FreqRow>) returns (table: seq<seq<Cell>>)
    ensures |table| == |Dedup(RStripAll(lines))| / 2 + 1
    ensures table[0] == Header
    ensures forall i :: 1 <= i < |table| ==>
              |table[i]| == 8 &&
              table[i][0] == Str(Dedup(RStripAll(lines))[2 * i - 2]) &&
              table[i][3] == Str(Dedup(RStripAll(lines))[2 * i - 1])
    ensures forall i :: 1 <= i < |table| ==> !(table[i][6] == Str("True") && table[i][7] == Str("True"))
  {
    var totalWords := CollectWords(lines);
    var freqlist := CollectFreqs(totalWords, rows);
    var keys, result := FreqDict(freqlist);
    KeysAreDistinctWords(totalWords, rows);
    var pos, cs := CreateConfusionSets(keys, result, freqlist);
    PairsNeverBothTrue(freqlist, keys, pos);
    var zippedFinal := IdenticalOrDisjoint(pos, cs);
    table := WriteOutput(zippedFinal, cs);
    TableRows(freqlist, keys, pos, cs, zippedFinal, table);
  }

  /** Row `i` of the written table holds the pair of keys `2i - 2` and
      `2i - 1` and never has both flags "True". */
  lemma TableRows(freqlist: seq<FreqRow>, keys: seq<String>, pos: seq<(seq<String>, seq<String>)>,
                  cs: seq<(Entry, Entry)>, zippedFinal: seq<Judged>, table: seq<seq<Cell>>)
    requires |pos| == |cs| == |keys| / 2
    requires forall i :: 0 <= i < |pos| ==>
               cs[i].0.form == keys[2 * i] && cs[i].1.form == keys[2 * i + 1] &&
               !(DisjointFlag(pos[i].0, pos[i].1) == "True" && IdenticalFlag(pos[i].0, pos[i].1) == "True")
    requires |zippedFinal| == |cs|
    requires forall i :: 0 <= i < |zippedFinal| ==>
               zippedFinal[i] == Judged(cs[i], DisjointFlag(pos[i].0, pos[i].1), IdenticalFlag(pos[i].0, pos[i].1))
    requires |table| == |cs| + 1
    requires forall i :: 1 <= i < |table| ==> table[i] == RowCells(zippedFinal[i - 1])
    ensures forall i :: 1 <= i < |table| ==>
              |table[i]| == 8 &&
              table[i][0] == Str(keys[2 * i - 2]) && table[i][3] == Str(keys[2 * i - 1]) &&
              !(table[i][6] == Str("True") && table[i][7] == Str("True"))
  {
    forall i | 1 <= i < |table|
      ensures |table[i]| == 8
      ensures table[i][0] == Str(keys[2 * i - 2]) && table[i][3] == Str(keys[2 * i - 1])
      ensures !(table[i][6] == Str("True") && table[i][7] == Str("True"))
    {
      var p := i - 1;
      assert table[i] == RowCells(zippedFinal[p]);
    }
  }

  lemma FormsAppend(a: seq<FreqRow>, b: seq<FreqRow>)
    ensures Forms(a + b) == Forms(a) + Forms(b)
  {
  }

  /** The keys of `freqdict` over the collected rows are the distinct words
      of the list, in first-seen order. */
  lemma {:induction false} KeysAreDistinctWords(words: seq<String>, rows: seq<FreqRow>)
    ensures Dedup(Forms(CollectedFreqs(words, rows))) == Dedup(words)
  {
    if words != [] {
      var init := words[..|words| - 1];
      var v := words[|words| - 1];
      assert words == init + [v];
      var a := Forms(CollectedFreqs(init, rows));
      var group := FreqsFor(v, rows);
      assert CollectedFreqs(words, rows) == CollectedFreqs(init, rows) + group;
      FreqsForShape(v, rows);
      FormsAppend(CollectedFreqs(init, rows), group);
      assert Forms(group) == Repeat(v, |group|);
      DedupRepeatTail(a, v, |group|);
      KeysAreDistinctWords(init, rows);
      DedupSameSnoc(a, init, v);
    }
  }

  /** No pair of keys has tag lists that are both disjoint and identical. */
  lemma PairsNeverBothTrue(freqlist: seq<FreqRow>, keys: seq<String>, pos: seq<(seq<String>, seq<String>)>)
    requires keys == Dedup(Forms(freqlist))
    requires |pos| == |keys| / 2
    requires forall i :: 0 <= i < |keys| / 2 ==>
               pos[i] == (TagsOf(freqlist, keys[2 * i]), TagsOf(freqlist, keys[2 * i + 1]))
    ensures forall i :: 0 <= i < |pos| ==>
              !(DisjointFlag(pos[i].0, pos[i].1) == "True" && IdenticalFlag(pos[i].0, pos[i].1) == "True")
  {
    forall i | 0 <= i < |pos|
      ensures !(DisjointFlag(pos[i].0, pos[i].1) == "True" && IdenticalFlag(pos[i].0, pos[i].1) == "True")
    {
      KeyHasTags(freqlist, keys, keys[2 * i]);
      FlagsExclusive(pos[i].0, pos[i].1);
    }
  }

  /** A dictionary key comes from some row, so its tag list is not empty. */
  lemma KeyHasTags(freqlist: seq<FreqRow>, keys: seq<String>, k: String)
    requires keys == Dedup(Forms(freqlist))
    requires k in keys
    ensures TagsOf(freqlist, k) != []
  {
    DedupMembers(Forms(freqlist), k);
    RowsOfMembers(freqlist, k);
  }
}
