/**
 * Bag-of-words features for the decision-tree classifier
 * (Code/decisiontree_bagofwords.py): for a pair of confusable words, the
 * re-parsed example sentences selected for each word lose their tags, a
 * vocabulary of every other word is built in first-seen order, and each
 * sentence becomes a row of word counts over that vocabulary; the labels are
 * 0 for the first word's sentences and 1 for the second's.
 *
 * numpy's float matrices are modelled as integer matrices (every entry is a
 * small count).
 */
module DecisionTreeBow {
  import opened Seqs
  import opened Text
  import opened ExampleParse

  /** What `np.delete(data_matrix, 0, 0)` leaves after the stacking loop: a
      matrix when at least one row was stacked; otherwise the seed row was a
      flat vector, which loses its first element, or an index error when
      that vector is empty. */
  datatype Stacked = Rows(rows: seq<seq<int>>) | Flat(values: seq<int>) | IndexError

  /** The inputs handed to the classifier for one word pair. */
  datatype Dataset = Dataset(data: Stacked, labels: seq<int>, vocabList: seq<String>)

  // ---------------------------------------------------------------------
  // Specification functions

  /** The sentences with their tags removed. */
  function WordsOnly(sents: seq<Sentence>): (r: seq<seq<String>>)
    ensures |r| == |sents|
    ensures forall i :: 0 <= i < |sents| ==> r[i] == Firsts(sents[i])
  {
    if sents == [] then [] else WordsOnly(sents[..|sents| - 1]) + [Firsts(sents[|sents| - 1])]
  }

  lemma WordsOnlySnoc(sents: seq<Sentence>, i: nat)
    requires i < |sents|
    ensures WordsOnly(sents[..i + 1]) == WordsOnly(sents[..i]) + [Firsts(sents[i])]
  {
    assert sents[..i + 1][..i] == sents[..i];
  }

  /** The words that are neither target word, in order. */
  function Kept(vocab: seq<String>, t1: String, t2: String): seq<String> {
    Without(Without(vocab, t1), t2)
  }

  /** One sentence's counts over the vocabulary list. */
  function BowRow(sentence: seq<String>, vocabList: seq<String>): seq<int> {
    seq(|vocabList|, i requires 0 <= i < |vocabList| => Count(sentence, vocabList[i]))
  }

  /** The result of `generate_bow`'s stacking loop and seed-row deletion. */
  function StackedRows(sents: seq<seq<String>>, vocabList: seq<String>): Stacked {
    if sents == [] then
      (if vocabList == [] then IndexError else Flat(Repeat(0, |vocabList| - 1)))
    else Rows(seq(|sents|, r requires 0 <= r < |sents| => BowRow(sents[r], vocabList)))
  }

  /** The sentences of the example file selected for `w`. */
  function Examples(data: String, w: String): seq<Sentence> {
    Selected(Tupled(Preprocessed(data)), w)
  }

  /** Everything `automate` computes for one pair before training. */
  function DatasetFor(data: String, w1: String, w2: String): Dataset {
    var s1 := Examples(data, w1);
    var s2 := Examples(data, w2);
    var sents := WordsOnly(s1) + WordsOnly(s2);
    var vocabList := Dedup(Kept(Flatten(sents), w1, w2));
    Dataset(StackedRows(sents, vocabList), Repeat(0, |s1|) + Repeat(1, |s2|), vocabList)
  }

  function SumOf(xs: seq<int>): int {
    if xs == [] then 0 else SumOf(xs[..|xs| - 1]) + xs[|xs| - 1]
  }

  // ---------------------------------------------------------------------
  // The script's functions

  /** One of the two identical loops of `remove_postag`: each sentence
      without its tags, and every word seen, in order. */
  method StripTags(list: seq<Sentence>) returns (vocab: seq<String>, updated: seq<seq<String>>)
    ensures updated == WordsOnly(list)
    ensures vocab == Flatten(updated)
  {
    vocab := [];
    updated := [];
    var i := 0;
    while i < |list|
      invariant 0 <= i <= |list|
      invariant updated == WordsOnly(list[..i])
      invariant vocab == Flatten(updated)
    {
      var sent;
      vocab, sent := StripSentence(vocab, list[i]);
      WordsOnlySnoc(list, i);
      FlattenSnoc(updated, sent);
      updated := updated + [sent];
      i := i + 1;
    }
    assert list[..i] == list;
  }

  /** The inner loop of `remove_postag`: one sentence's words, each also
      appended to the vocabulary. */
  method StripSentence(vocab: seq<String>, sentence: Sentence) returns (vocab': seq<String>, sent: seq<String>)
    ensures sent == Firsts(sentence)
    ensures vocab' == vocab + sent
  {
    vocab' := vocab;
    sent := [];
    var x := 0;
    while x < |sentence|
      invariant 0 <= x <= |sentence|
      invariant sent == Firsts(sentence[..x])
      invariant vocab' == vocab + sent
    {
      assert sentence[..x + 1][..x] == sentence[..x];
      vocab' := vocab' + [sentence[x].0];
      sent := sent + [sentence[x].0];
      x := x + 1;
    }
    assert sentence[..x] == sentence;
  }

  /** `remove_postag`: the word-only sentences of both lists, in order, and
      every word of them as the vocabulary. */
  method RemovePostag(list1: seq<Sentence>, list2: seq<Sentence>)
    returns (vocab: seq<String>, updated: seq<seq<String>>)
    ensures updated == WordsOnly(list1) + WordsOnly(list2)
    ensures vocab == Flatten(updated)
  {
    var vocab1, updated1 := StripTags(list1);
    var vocab2, updated2 := StripTags(list2);
    vocab := vocab1 + vocab2;
    updated := updated1 + updated2;
    FlattenAppend(updated1, updated2);
  }

  /** The counting loop of `generate_bow`: the dictionary from every word
      other than the two targets to its number of occurrences, and its keys
      in insertion order. */
  method CountVocab(vocab: seq<String>, t1: String, t2: String)
    returns (keys: seq<String>, uniqueVocab: map<String, int>)
    ensures keys == Dedup(Kept(vocab, t1, t2))
    ensures forall k :: k in uniqueVocab <==> k in keys
    ensures forall k :: k in uniqueVocab ==> uniqueVocab[k] == Count(Kept(vocab, t1, t2), k)
  {
    keys := [];
    uniqueVocab := map[];
    ghost var kept: seq<String> := [];
    var j := 0;
    while j < |vocab|
      invariant 0 <= j <= |vocab|
      invariant kept == Kept(vocab[..j], t1, t2)
      invariant CountsOf(kept, keys, uniqueVocab)
    {
      var i := vocab[j];
      KeptSnoc(vocab, j, t1, t2);
      if i != t1 {
        if i != t2 {
          CountStep(kept, keys, uniqueVocab, i);
          if i in uniqueVocab {
            uniqueVocab := uniqueVocab[i := uniqueVocab[i] + 1];
          } else {
            uniqueVocab := uniqueVocab[i := 1];
            keys := keys + [i];
          }
          kept := kept + [i];
        }
      }
      j := j + 1;
    }
    assert vocab[..j] == vocab;
  }

  /** The counting dictionary and its key list after reading `kept`. */
  ghost predicate CountsOf(kept: seq<String>, keys: seq<String>, counts: map<String, int>) {
    && keys == Dedup(kept)
    && (forall k :: k in counts <==> k in keys)
    && (forall k :: k in counts ==> counts[k] == Count(kept, k))
  }

  /** One step of the counting loop keeps the dictionary in step with the
      words read. */
  lemma CountStep(kept: seq<String>, keys: seq<String>, counts: map<String, int>, i: String)
    requires CountsOf(kept, keys, counts)
    ensures i in counts ==> CountsOf(kept + [i], keys, counts[i := counts[i] + 1])
    ensures i !in counts ==> CountsOf(kept + [i], keys + [i], counts[i := 1])
  {
    DedupSnoc(kept, i);
    DedupMembers(kept, i);
    CountSnoc(kept, i);
    CountPositive(kept, i);
  }

  /** `generate_bow`: the vocabulary list (the keys of the counting
      dictionary, in insertion order) and the stacked count rows. */
  method GenerateBow(vocab: seq<String>, sentList: seq<seq<String>>, t1: String, t2: String)
    returns (data: Stacked, vocabList: seq<String>)
    ensures vocabList == Dedup(Kept(vocab, t1, t2))
    ensures data == StackedRows(sentList, vocabList)
  {
    var keys, uniqueVocab := CountVocab(vocab, t1, t2);
    vocabList := [];
    var m := 0;
    while m < |keys|
      invariant 0 <= m <= |keys|
      invariant vocabList == keys[..m]
    {
      assert keys[..m + 1] == keys[..m] + [keys[m]];
      vocabList := vocabList + [keys[m]];
      m := m + 1;
    }
    assert keys[..m] == keys;

    var width := |vocabList|;
    var dataMatrix: seq<seq<int>> := [Repeat(0, width)];
    var s := 0;
    while s < |sentList|
      invariant 0 <= s <= |sentList|
      invariant |dataMatrix| == s + 1
      invariant forall r :: 0 <= r < s ==> dataMatrix[r + 1] == BowRow(sentList[r], vocabList)
    {
      var row := CountRow(sentList[s], vocabList);
      dataMatrix := dataMatrix + [row];
      s := s + 1;
    }
    if |sentList| == 0 {
      data := if width == 0 then IndexError else Flat(Repeat(0, width - 1));
    } else {
      data := Rows(dataMatrix[1..]);
    }
  }

  /** The inner loops of `generate_bow` for one sentence: a zero vector and
      `bow_vector[i] += 1` for every word and every matching position. */
  method CountRow(sentence: seq<String>, vocabList: seq<String>) returns (row: seq<int>)
    ensures row == BowRow(sentence, vocabList)
  {
    var bow := new int[|vocabList|](_ => 0);
    var w := 0;
    while w < |sentence|
      invariant 0 <= w <= |sentence|
      invariant forall m :: 0 <= m < bow.Length ==> bow[m] == Count(sentence[..w], vocabList[m])
    {
      var word := sentence[w];
      assert sentence[..w + 1][..w] == sentence[..w];
      var i := 0;
      while i < bow.Length
        invariant 0 <= i <= bow.Length
        invariant forall m :: 0 <= m < i ==> bow[m] == Count(sentence[..w + 1], vocabList[m])
        invariant forall m :: i <= m < bow.Length ==> bow[m] == Count(sentence[..w], vocabList[m])
      {
        if word == vocabList[i] {
          bow[i] := bow[i] + 1;
        }
        i := i + 1;
      }
      w := w + 1;
    }
    assert sentence[..w] == sentence;
    row := bow[..];
  }

  /** The loop of `automate` for one word pair, up to the classifier. */
  method BuildDataset(data: String, w1: String, w2: String) returns (ds: Dataset)
    ensures ds == DatasetFor(data, w1, w2)
  {
    var sent := Preprocess(data);
    var sentences := TupleSent(sent);
    var sentList1, target1 := SentList(sentences, w1, 0);
    var sentList2, target2 := SentList(sentences, w2, 1);
    var vocab, totalSentList := RemovePostag(sentList1, sentList2);
    var matrix, vocabList := GenerateBow(vocab, totalSentList, w1, w2);
    var target := target1 + target2;
    ds := Dataset(matrix, target, vocabList);
  }

  /** The datasets for a list of word pairs, in order. */
  function PairDatasets(pairs: seq<(String, String)>, data: String): (r: seq<Dataset>)
    ensures |r| == |pairs|
  {
    if pairs == [] then []
    else PairDatasets(pairs[..|pairs| - 1], data) + [DatasetFor(data, pairs[|pairs| - 1].0, pairs[|pairs| - 1].1)]
  }

  /** The i-th dataset is built for the i-th pair. */
  lemma {:induction false} PairDatasetsAt(pairs: seq<(String, String)>, data: String, i: nat)
    requires i < |pairs|
    ensures PairDatasets(pairs, data)[i] == DatasetFor(data, pairs[i].0, pairs[i].1)
  {
    if i < |pairs| - 1 {
      PairDatasetsAt(pairs[..|pairs| - 1], data, i);
    }
  }

  /** Why `automate` stops early: the odd word list runs past its end at
      `words[count]`, or `np.delete` finds no seed row for the pair with that
      index. */
  datatype Failure = WordIndex(count: nat) | EmptyPair(pair: nat)

  /** How many pairs `automate` gets through: the index of the first
      dataset whose seed deletion raises IndexError, or all of them. */
  function Reached(ds: seq<Dataset>): (k: nat)
    ensures k <= |ds|
    ensures forall j :: 0 <= j < k ==> !ds[j].data.IndexError?
    ensures k < |ds| ==> ds[k].data.IndexError?
  {
    if ds == [] || ds[0].data.IndexError? then 0
    else 1 + Reached(ds[1..])
  }

  /** A dataset without the index error before the stopping point lets
      `automate` go on past it. */
  lemma ReachedStep(ds: seq<Dataset>, i: nat)
    requires i <= Reached(ds) && i < |ds| && !ds[i].data.IndexError?
    ensures i + 1 <= Reached(ds)
  {
  }

  /** A dataset with the index error at or before the stopping point is
      where `automate` stops. */
  lemma ReachedAt(ds: seq<Dataset>, i: nat)
    requires i <= Reached(ds) && i < |ds| && ds[i].data.IndexError?
    ensures Reached(ds) == i
  {
  }

  /** `automate`: one dataset per consecutive pair of the stripped word
      list, in order, until a pair without example sentences stops the
      script with an index error; an odd word list that gets through all its
      pairs ends in an index error at its length. */
  method Automate(wordLines: seq<String>, data: String) returns (datasets: seq<Dataset>, failure: Option<Failure>)
    ensures var all := PairDatasets(PairAdjacent(RStripAll(wordLines)), data);
            var k := Reached(all);
            && datasets == all[..k]
            && failure == if k < |all| then Some(EmptyPair(k))
                          else if |wordLines| % 2 == 1 then Some(WordIndex(|wordLines|))
                          else None
  {
    var words := RStripLines(wordLines);
    var pairs, failedAt := WordPairs(words);
    assert pairs == PairAdjacent(RStripAll(wordLines)) && |words| == |wordLines|;
    var failedPair;
    datasets, failedPair := BuildAll(pairs, data);
    if failedPair.Some? {
      failure := Some(EmptyPair(failedPair.value));
    } else if failedAt.Some? {
      failure := Some(WordIndex(failedAt.value));
    } else {
      failure := None;
    }
  }

  /** The body of `automate`'s loop, pair after pair, until a pair's seed
      deletion fails. */
  method BuildAll(pairs: seq<(String, String)>, data: String) returns (datasets: seq<Dataset>, failedPair: Option<nat>)
    ensures var all := PairDatasets(pairs, data);
            var k := Reached(all);
            && datasets == all[..k]
            && failedPair == if k < |all| then Some(k) else None
  {
    ghost var all := PairDatasets(pairs, data);
    datasets := [];
    var i := 0;
    while i < |pairs|
      invariant 0 <= i <= Reached(all)
      invariant datasets == all[..i]
    {
      var ds := BuildPair(pairs, data, i);
      if ds.data.IndexError? {
        ReachedAt(all, i);
        return datasets, Some(i);
      }
      ReachedStep(all, i);
      TakeSnoc(all, i);
      datasets := datasets + [ds];
      i := i + 1;
    }
    assert i == Reached(all);
    failedPair := None;
  }

  /** One pass of `automate`'s loop body: the dataset of the i-th pair. */
  method BuildPair(pairs: seq<(String, String)>, data: String, i: nat) returns (ds: Dataset)
    requires i < |pairs|
    ensures ds == PairDatasets(pairs, data)[i]
  {
    ds := BuildDataset(data, pairs[i].0, pairs[i].1);
    PairDatasetsAt(pairs, data, i);
  }

  /** What `automate` trains on for its i-th pair, before it stops: the
      dataset of lines 2i and 2i+1 of the word file, right-stripped; at
      least one of the two words has example sentences, and the matrix has
      one row per selected sentence. */
  lemma AutomatePairs(wordLines: seq<String>, data: String, i: nat)
    requires i < Reached(PairDatasets(PairAdjacent(RStripAll(wordLines)), data))
    ensures var all := PairDatasets(PairAdjacent(RStripAll(wordLines)), data);
            && all[i] == DatasetFor(data, RStrip(wordLines[2 * i]), RStrip(wordLines[2 * i + 1]))
            && all[i].data.Rows? && |all[i].data.rows| == |all[i].labels| > 0
    ensures Examples(data, RStrip(wordLines[2 * i])) != [] || Examples(data, RStrip(wordLines[2 * i + 1])) != []
  {
    var w1, w2 := PairWords(wordLines, data, i);
    DatasetFails(data, w1, w2);
  }

  /** Where `automate` stops: k pairs are built, and when k is not the
      number of complete pairs, the pair it stops at (lines 2k and 2k+1 of
      the word file) has no example sentence for either word. */
  lemma AutomateStops(wordLines: seq<String>, data: String, k: nat)
    requires k == Reached(PairDatasets(PairAdjacent(RStripAll(wordLines)), data))
    ensures k <= |wordLines| / 2
    ensures k < |wordLines| / 2 ==>
              Examples(data, RStrip(wordLines[2 * k])) == [] && Examples(data, RStrip(wordLines[2 * k + 1])) == []
  {
    if k < |wordLines| / 2 {
      StopPair(wordLines, data, k);
    }
  }

  /** The pair `automate` stops at has no example sentences. */
  lemma StopPair(wordLines: seq<String>, data: String, k: nat)
    requires k < |wordLines| / 2
    requires PairDatasets(PairAdjacent(RStripAll(wordLines)), data)[k].data.IndexError?
    ensures Examples(data, RStrip(wordLines[2 * k])) == []
    ensures Examples(data, RStrip(wordLines[2 * k + 1])) == []
  {
    var w1, w2 := PairWords(wordLines, data, k);
    DatasetFails(data, w1, w2);
  }

  /** The words of the j-th pair and the dataset built for them. */
  lemma PairWords(wordLines: seq<String>, data: String, j: nat) returns (w1: String, w2: String)
    requires j < |wordLines| / 2
    ensures w1 == RStrip(wordLines[2 * j]) && w2 == RStrip(wordLines[2 * j + 1])
    ensures PairDatasets(PairAdjacent(RStripAll(wordLines)), data)[j] == DatasetFor(data, w1, w2)
  {
    var pairs := PairAdjacent(RStripAll(wordLines));
    w1, w2 := pairs[j].0, pairs[j].1;
    PairDatasetsAt(pairs, data, j);
  }

  /** A pair's seed deletion fails exactly when neither word has an example
      sentence; otherwise the matrix has one row per label. */
  lemma DatasetFails(data: String, w1: String, w2: String)
    ensures var ds := DatasetFor(data, w1, w2);
            && (ds.data.IndexError? <==> Examples(data, w1) == [] && Examples(data, w2) == [])
            && (!ds.data.IndexError? ==> ds.data.Rows? && |ds.data.rows| == |ds.labels| > 0)
  {
    LabelsMatchRows(data, w1, w2);
  }

  // ---------------------------------------------------------------------
  // Lemmas

  lemma KeptSnoc(vocab: seq<String>, j: nat, t1: String, t2: String)
    requires j < |vocab|
    ensures Kept(vocab[..j + 1], t1, t2) ==
            Kept(vocab[..j], t1, t2) + (if vocab[j] != t1 && vocab[j] != t2 then [vocab[j]] else [])
  {
    var p := vocab[..j + 1];
    var v := vocab[j];
    assert p[..|p| - 1] == vocab[..j] && p[|p| - 1] == v;
    var w := Without(vocab[..j], t1);
    if v == t1 {
      assert Without(p, t1) == w;
    } else {
      assert Without(p, t1) == w + [v];
      assert (w + [v])[..|w|] == w;
    }
  }

  /** The vocabulary list has no repeats, leaves out both target words
      and holds every other word of the vocabulary (in first-seen order, by
      `DedupFirstSeenOrder`). */
  lemma VocabListProperties(vocab: seq<String>, t1: String, t2: String)
    ensures NoDup(Dedup(Kept(vocab, t1, t2)))
    ensures forall x :: x in Dedup(Kept(vocab, t1, t2)) <==> x in vocab && x != t1 && x != t2
  {
    var kept := Kept(vocab, t1, t2);
    forall x ensures x in Dedup(kept) <==> x in vocab && x != t1 && x != t2 {
      DedupMembers(kept, x);
      WithoutMembers(Without(vocab, t1), t2, x);
      WithoutMembers(vocab, t1, x);
    }
  }

  lemma {:induction false} FilterInNothing(s: seq<String>)
    ensures FilterIn(s, []) == []
  {
    if s != [] {
      FilterInNothing(s[..|s| - 1]);
    }
  }

  /** Adding a new word to the list lets through exactly its occurrences. */
  lemma {:induction false} FilterInExtend(s: seq<String>, t: seq<String>, y: String)
    requires y !in t
    ensures |FilterIn(s, t + [y])| == |FilterIn(s, t)| + Count(s, y)
  {
    if s != [] {
      FilterInExtend(s[..|s| - 1], t, y);
    }
  }

  /** The entries of a count row add up to the number of the sentence's
      words that are in the vocabulary list. */
  lemma {:induction false} BowRowSum(s: seq<String>, vocabList: seq<String>)
    requires NoDup(vocabList)
    ensures SumOf(BowRow(s, vocabList)) == |FilterIn(s, vocabList)|
  {
    if vocabList == [] {
      FilterInNothing(s);
    } else {
      var init := vocabList[..|vocabList| - 1];
      var y := vocabList[|vocabList| - 1];
      assert BowRow(s, vocabList) == BowRow(s, init) + [Count(s, y)];
      assert BowRow(s, vocabList)[..|init|] == BowRow(s, init);
      BowRowSum(s, init);
      assert vocabList == init + [y];
      FilterInExtend(s, init, y);
    }
  }

  /** When a sentence's words are in the vocabulary list exactly when they
      are not target words, the words let through are its non-target words. */
  lemma {:induction false} FilterInIsKept(s: seq<String>, vocabList: seq<String>, t1: String, t2: String)
    requires forall x :: x in s ==> (x in vocabList <==> x != t1 && x != t2)
    ensures FilterIn(s, vocabList) == Kept(s, t1, t2)
  {
    if s != [] {
      var init := s[..|s| - 1];
      assert forall x :: x in init ==> x in s;
      FilterInIsKept(init, vocabList, t1, t2);
      KeptSnoc(s, |s| - 1, t1, t2);
      assert s[..|s|] == s;
    }
  }

  /** Each row of the pipeline's matrix counts every word of its sentence
      that is not a target word exactly once. */
  lemma RowTotal(sents: seq<seq<String>>, t1: String, t2: String, r: nat)
    requires r < |sents|
    ensures SumOf(BowRow(sents[r], Dedup(Kept(Flatten(sents), t1, t2)))) == |Kept(sents[r], t1, t2)|
  {
    var vocabList := Dedup(Kept(Flatten(sents), t1, t2));
    VocabListProperties(Flatten(sents), t1, t2);
    forall x | x in sents[r] ensures x in vocabList <==> x != t1 && x != t2 {
      FlattenMembers(sents, r, x);
    }
    BowRowSum(sents[r], vocabList);
    FilterInIsKept(sents[r], vocabList, t1, t2);
  }

  /** The label vector has one entry per matrix row: zeros for the first
      word's sentences, then ones for the second's; with no sentence at all
      the seed deletion fails. */
  lemma LabelsMatchRows(data: String, w1: String, w2: String)
    ensures var ds := DatasetFor(data, w1, w2);
            var n1 := |Examples(data, w1)|;
            && |ds.labels| == n1 + |Examples(data, w2)|
            && (forall r :: 0 <= r < |ds.labels| ==> ds.labels[r] == if r < n1 then 0 else 1)
            && (|ds.labels| > 0 ==> ds.data.Rows? && |ds.data.rows| == |ds.labels|)
            && (|ds.labels| == 0 ==> ds.data == IndexError)
  {
    var s1 := Examples(data, w1);
    var s2 := Examples(data, w2);
    var sents := WordsOnly(s1) + WordsOnly(s2);
    if sents == [] {
      assert Flatten(sents) == [];
      assert Kept([], w1, w2) == [];
    }
  }
}
