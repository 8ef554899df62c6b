/**
 * The inputs of the bag-of-words logistic regression
 * (Code/logisticregression_bagofwords.py): for a pair of confusable words,
 * the re-parsed example sentences selected for each word lose their tags
 * and their own target word, and are labelled 0 for the first word and 1
 * for the second. Turning the sentences into vectors is gensim's job and is
 * not part of this model.
 */
module LogisticBow {
  import opened Seqs
  import opened Text
  import opened ExampleParse

  /** The word-only sentences and their labels, as handed to gensim and the
      classifier. */
  datatype Input = Input(sentences: seq<seq<String>>, labels: seq<int>)

  /** Each sentence's words, without the tokens whose word is `target`. */
  function WithoutTarget(sents: seq<Sentence>, target: String): (r: seq<seq<String>>)
    ensures |r| == |sents|
    ensures forall i :: 0 <= i < |sents| ==> r[i] == Without(Firsts(sents[i]), target)
  {
    if sents == [] then []
    else WithoutTarget(sents[..|sents| - 1], target) + [Without(Firsts(sents[|sents| - 1]), target)]
  }

  /** What `automate` assembles for one pair before gensim. */
  function InputFor(data: String, w1: String, w2: String): Input {
    var s1 := Selected(Tupled(Preprocessed(data)), w1);
    var s2 := Selected(Tupled(Preprocessed(data)), w2);
    Input(WithoutTarget(s1, w1) + WithoutTarget(s2, w2), Repeat(0, |s1|) + Repeat(1, |s2|))
  }

  /** One of the two loops of `remove_postag`: the words of each sentence
      other than `target`, in order. */
  method DropTarget(list: seq<Sentence>, target: String) returns (updated: seq<seq<String>>)
    ensures updated == WithoutTarget(list, target)
  {
    updated := [];
    var i := 0;
    while i < |list|
      invariant 0 <= i <= |list|
      invariant updated == WithoutTarget(list[..i], target)
    {
      assert list[..i + 1][..i] == list[..i];
      var sent := DropInSentence(list[i], target);
      updated := updated + [sent];
      i := i + 1;
    }
    assert list[..i] == list;
  }

  /** The inner loop of `remove_postag`: one sentence's words other than
      `target`. */
  method DropInSentence(sentence: Sentence, target: String) returns (sent: seq<String>)
    ensures sent == Without(Firsts(sentence), target)
  {
    sent := [];
    var x := 0;
    while x < |sentence|
      invariant 0 <= x <= |sentence|
      invariant sent == Without(Firsts(sentence[..x]), target)
    {
      WithoutFirstsSnoc(sentence, x, target);
      if sentence[x].0 != target {
        sent := sent + [sentence[x].0];
      }
      x := x + 1;
    }
    assert sentence[..x] == sentence;
  }

  lemma WithoutFirstsSnoc(sentence: Sentence, x: nat, target: String)
    requires x < |sentence|
    ensures Without(Firsts(sentence[..x + 1]), target) ==
            Without(Firsts(sentence[..x]), target) + if sentence[x].0 == target then [] else [sentence[x].0]
  {
    var w := Firsts(sentence[..x + 1]);
    assert w[..x] == Firsts(sentence[..x]);
  }

  /** `remove_postag`: the first list's sentences without the first target
      word, then the second list's without the second. */
  method RemovePostag(list1: seq<Sentence>, list2: seq<Sentence>, t1: String, t2: String)
    returns (updated: seq<seq<String>>)
    ensures updated == WithoutTarget(list1, t1) + WithoutTarget(list2, t2)
  {
    var updated1 := DropTarget(list1, t1);
    var updated2 := DropTarget(list2, t2);
    updated := updated1 + updated2;
  }

  /** The loop body of `automate` for one word pair, up to gensim. */
  method BuildInput(data: String, w1: String, w2: String) returns (input: Input)
    ensures input == InputFor(data, w1, w2)
  {
    var sent := Preprocess(data);
    var sentences := TupleSent(sent);
    var sentList1, target1 := SentList(sentences, w1, 0);
    var sentList2, target2 := SentList(sentences, w2, 1);
    var totalSentList := RemovePostag(sentList1, sentList2, w1, w2);
    input := Input(totalSentList, target1 + target2);
  }

  /** The inputs for a list of word pairs, in order. */
  function PairInputs(pairs: seq<(String, String)>, data: String): seq<Input> {
    Map((p: (String, String)) => InputFor(data, p.0, p.1), pairs)
  }

  /** `automate`: one input per consecutive pair of the stripped word list;
      an odd word list ends in an index error after the complete pairs. */
  method Automate(wordLines: seq<String>, data: String) returns (inputs: seq<Input>, failedAt: Option<nat>)
    ensures inputs == PairInputs(PairAdjacent(RStripAll(wordLines)), data)
    ensures failedAt == if |wordLines| % 2 == 1 then Some(|wordLines|) else None
  {
    var words := RStripLines(wordLines);
    var pairs;
    pairs, failedAt := WordPairs(words);
    inputs := BuildAll(pairs, data);
  }

  /** The body of `automate`'s loop, pair after pair. */
  method BuildAll(pairs: seq<(String, String)>, data: String) returns (inputs: seq<Input>)
    ensures inputs == PairInputs(pairs, data)
  {
    ghost var all := PairInputs(pairs, data);
    inputs := [];
    var i := 0;
    while i < |pairs|
      invariant 0 <= i <= |pairs|
      invariant inputs == all[..i]
    {
      var input := BuildInput(data, pairs[i].0, pairs[i].1);
      TakeSnoc(all, i);
      inputs := inputs + [input];
      i := i + 1;
    }
    assert all[..i] == all;
  }

  // ---------------------------------------------------------------------
  // Lemmas

  /** The sentences of the first list lose exactly their first target word
      and those of the second list exactly their second target word: every
      other word keeps its count, and the length drops by the number of
      target tokens. */
  lemma DropsOnlyTarget(list1: seq<Sentence>, list2: seq<Sentence>, t1: String, t2: String, r: nat, y: String)
    requires r < |list1| + |list2|
    ensures var out := WithoutTarget(list1, t1) + WithoutTarget(list2, t2);
            var src := if r < |list1| then list1[r] else list2[r - |list1|];
            var t := if r < |list1| then t1 else t2;
            && |out| == |list1| + |list2|
            && t !in out[r]
            && |out[r]| == |src| - Occurrences(src, t)
            && (y != t ==> Count(out[r], y) == Count(Firsts(src), y))
  {
    var out1 := WithoutTarget(list1, t1);
    var out2 := WithoutTarget(list2, t2);
    assert |out1 + out2| == |list1| + |list2|;
    if r < |list1| {
      assert (out1 + out2)[r] == Without(Firsts(list1[r]), t1);
      DropFacts(Firsts(list1[r]), t1, y);
    } else {
      assert (out1 + out2)[r] == Without(Firsts(list2[r - |list1|]), t2);
      DropFacts(Firsts(list2[r - |list1|]), t2, y);
    }
  }

  /** Removing a word leaves none of it, shortens the words by its count
      and keeps every other word's count. */
  lemma DropFacts(words: seq<String>, t: String, y: String)
    ensures t !in Without(words, t)
    ensures |Without(words, t)| == |words| - Count(words, t)
    ensures y != t ==> Count(Without(words, t), y) == Count(words, y)
  {
    WithoutMembers(words, t, t);
    if y != t {
      WithoutKeepsOthers(words, t, y);
    }
  }

  /** Every sentence handed on is strictly shorter than the selected
      sentence it comes from, since that sentence holds its target word. */
  lemma InputSentencesShrink(data: String, w1: String, w2: String, r: nat)
    requires r < |InputFor(data, w1, w2).sentences|
    ensures var sents := Tupled(Preprocessed(data));
            var s1 := Selected(sents, w1);
            var s2 := Selected(sents, w2);
            |InputFor(data, w1, w2).sentences[r]| < if r < |s1| then |s1[r]| else |s2[r - |s1|]|
  {
    var sents := Tupled(Preprocessed(data));
    var s1 := Selected(sents, w1);
    var s2 := Selected(sents, w2);
    var out1 := WithoutTarget(s1, w1);
    var out2 := WithoutTarget(s2, w2);
    assert InputFor(data, w1, w2).sentences == out1 + out2;
    if r < |s1| {
      assert (out1 + out2)[r] == out1[r];
      SelectedShrink(sents, w1, r);
    } else {
      assert (out1 + out2)[r] == out2[r - |s1|];
      SelectedShrink(sents, w2, r - |s1|);
    }
  }

  /** A selected sentence loses at least its target token. */
  lemma SelectedShrink(sents: seq<Sentence>, t: String, i: nat)
    requires i < |Selected(sents, t)|
    ensures |WithoutTarget(Selected(sents, t), t)[i]| < |Selected(sents, t)[i]|
  {
    var x := Selected(sents, t)[i];
    SelectedContainTarget(sents, t, x);
    CountPositive(Firsts(x), t);
  }

  /** One label per sentence: zeros for the first word's sentences, then
      ones for the second's. */
  lemma LabelsMatchSentences(data: String, w1: String, w2: String)
    ensures var input := InputFor(data, w1, w2);
            var n1 := |Selected(Tupled(Preprocessed(data)), w1)|;
            && |input.labels| == |input.sentences|
            && forall r :: 0 <= r < |input.labels| ==> input.labels[r] == if r < n1 then 0 else 1
  {
  }

  /** The i-th input is built for lines 2i and 2i+1 of the word file,
      right-stripped. */
  lemma AutomatePairs(wordLines: seq<String>, data: String, i: nat)
    requires i < |wordLines| / 2
    ensures |PairInputs(PairAdjacent(RStripAll(wordLines)), data)| == |wordLines| / 2
    ensures PairInputs(PairAdjacent(RStripAll(wordLines)), data)[i] ==
            InputFor(data, RStrip(wordLines[2 * i]), RStrip(wordLines[2 * i + 1]))
  {
  }
}
