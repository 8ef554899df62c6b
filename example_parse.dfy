/**
 * Reading a sentence-example file back, as the three classifier scripts do
 * with their identical copies of `preprocess`, `tuple_sent` and `sent_list`
 * (Code/decisiontree_bagofwords.py, Code/logisticregression_bagofwords.py,
 * Code/logisticregression_grammatical.py): split on the `;;` word marker,
 * split each chunk on the literal tag text "punctuation", split each piece
 * on white space and pair the tokens up positionally as (word, tag).
 *
 * Also the word-pair loop their `automate` functions share.
 */
module ExampleParse {
  import opened Seqs
  import opened Text

  /** A (word, tag) token. */
  type Token = (String, String)

  /** A re-parsed sentence: its tokens in order. */
  type Sentence = seq<Token>

  const WordMarker: String := ";;"
  const PunctuationTag: String := "punctuation"

  // ---------------------------------------------------------------------
  // preprocess

  /** The token lists of the pieces of one chunk, one per piece. */
  function PieceTokens(pieces: seq<String>): (r: seq<seq<String>>)
    ensures |r| == |pieces|
    ensures forall i :: 0 <= i < |pieces| ==> r[i] == Words(pieces[i])
  {
    if pieces == [] then [] else PieceTokens(pieces[..|pieces| - 1]) + [Words(pieces[|pieces| - 1])]
  }

  /** The token lists of a sequence of `;;` chunks, chunk after chunk. */
  function ChunkTokens(chunks: seq<String>): seq<seq<String>> {
    if chunks == [] then []
    else ChunkTokens(chunks[..|chunks| - 1]) + PieceTokens(Split(chunks[|chunks| - 1], PunctuationTag))
  }

  /** What `preprocess` returns for the file contents `data`. */
  function Preprocessed(data: String): seq<seq<String>> {
    ChunkTokens(Split(data, WordMarker))
  }

  /** The number of pieces: per chunk, one more than its "punctuation" count. */
  function PieceCount(chunks: seq<String>): nat {
    if chunks == [] then 0
    else PieceCount(chunks[..|chunks| - 1]) + CountOccurrences(chunks[|chunks| - 1], PunctuationTag) + 1
  }

  lemma {:induction false} ChunkTokensLength(chunks: seq<String>)
    ensures |ChunkTokens(chunks)| == PieceCount(chunks)
  {
    if chunks != [] {
      ChunkTokensLength(chunks[..|chunks| - 1]);
      SplitCount(chunks[|chunks| - 1], PunctuationTag);
    }
  }

  /** `preprocess` yields one token list per "punctuation"-separated piece of
      every `;;` chunk. */
  lemma PreprocessCount(data: String)
    ensures |Preprocessed(data)| == PieceCount(Split(data, WordMarker))
  {
    ChunkTokensLength(Split(data, WordMarker));
  }

  lemma {:induction false} ChunkTokensAreWords(chunks: seq<String>)
    ensures forall i, j :: 0 <= i < |ChunkTokens(chunks)| && 0 <= j < |ChunkTokens(chunks)[i]| ==>
              IsWord(ChunkTokens(chunks)[i][j])
  {
    if chunks != [] {
      ChunkTokensAreWords(chunks[..|chunks| - 1]);
      var pieces := Split(chunks[|chunks| - 1], PunctuationTag);
      forall p | 0 <= p < |pieces| ensures forall j :: 0 <= j < |Words(pieces[p])| ==> IsWord(Words(pieces[p])[j]) {
        WordsAreWords(pieces[p]);
      }
    }
  }

  /** Every token `preprocess` returns is non-empty and free of white space. */
  lemma PreprocessTokensAreWords(data: String)
    ensures forall i, j :: 0 <= i < |Preprocessed(data)| && 0 <= j < |Preprocessed(data)[i]| ==>
              IsWord(Preprocessed(data)[i][j])
  {
    ChunkTokensAreWords(Split(data, WordMarker));
  }

  /** A file holding one marked chunk without "punctuation" reads back as
      an empty token list (the text before the marker) and the chunk's
      white-space separated tokens. */
  lemma PreprocessOneChunk(body: String)
    requires !Contains(body, WordMarker) && !Contains(body, PunctuationTag)
    ensures Preprocessed(WordMarker + body) == [[], Words(body)]
  {
    MarkedChunk(body);
    ChunkTokensTwo([], body);
    PiecesOfEmpty();
    PiecesOfPlain(body);
  }

  /** A marked chunk without a further marker splits into the empty text
      before the marker and the chunk. */
  lemma MarkedChunk(body: String)
    requires !Contains(body, WordMarker)
    ensures Split(WordMarker + body, WordMarker) == [[], body]
  {
    SplitLeadingSep(body, WordMarker);
    SplitWithoutSep(body, WordMarker);
  }

  lemma PiecesOfEmpty()
    ensures PieceTokens(Split([], PunctuationTag)) == [[]]
  {
    SplitWithoutSep([], PunctuationTag);
    assert Words([]) == [];
  }

  lemma PiecesOfPlain(body: String)
    requires !Contains(body, PunctuationTag)
    ensures PieceTokens(Split(body, PunctuationTag)) == [Words(body)]
  {
    SplitWithoutSep(body, PunctuationTag);
    assert PieceTokens([body]) == [Words(body)];
  }

  lemma ChunkTokensTwo(x: String, y: String)
    ensures ChunkTokens([x, y]) == PieceTokens(Split(x, PunctuationTag)) + PieceTokens(Split(y, PunctuationTag))
  {
    var cs := [x, y];
    assert cs[..1] == [x];
    assert ChunkTokens(cs) == ChunkTokens([x]) + PieceTokens(Split(y, PunctuationTag));
    assert [x][..0] == [];
    var px := PieceTokens(Split(x, PunctuationTag));
    assert ChunkTokens([x]) == ChunkTokens([]) + px;
    assert ChunkTokens([]) + px == px;
  }

  method Preprocess(data: String) returns (sent: seq<seq<String>>)
    ensures sent == Preprocessed(data)
  {
    var chunks := Split(data, WordMarker);
    sent := [];
    var c := 0;
    while c < |chunks|
      invariant 0 <= c <= |chunks|
      invariant sent == ChunkTokens(chunks[..c])
    {
      assert chunks[..c + 1][..c] == chunks[..c];
      sent := AddPieces(sent, Split(chunks[c], PunctuationTag));
      c := c + 1;
    }
    assert chunks[..c] == chunks;
  }

  /** The inner loop of `preprocess`: the white-space split of each piece
      of one chunk, appended in order. */
  method AddPieces(sent: seq<seq<String>>, pieces: seq<String>) returns (sent': seq<seq<String>>)
    ensures sent' == sent + PieceTokens(pieces)
  {
    sent' := sent;
    var p := 0;
    while p < |pieces|
      invariant 0 <= p <= |pieces|
      invariant sent' == sent + PieceTokens(pieces[..p])
    {
      assert pieces[..p + 1][..p] == pieces[..p];
      AppendAssoc(sent, PieceTokens(pieces[..p]), [Words(pieces[p])]);
      sent' := sent' + [Words(pieces[p])];
      p := p + 1;
    }
    assert pieces[..p] == pieces;
  }

  // ---------------------------------------------------------------------
  // tuple_sent

  /** Every token list paired up positionally. */
  function Tupled(sent: seq<seq<String>>): (r: seq<Sentence>)
    ensures |r| == |sent|
    ensures forall i :: 0 <= i < |sent| ==> |r[i]| == |sent[i]| / 2
    ensures forall i, j :: 0 <= i < |sent| && 0 <= j < |sent[i]| / 2 ==>
              r[i][j] == (sent[i][2 * j], sent[i][2 * j + 1])
  {
    if sent == [] then [] else Tupled(sent[..|sent| - 1]) + [PairAdjacent(sent[|sent| - 1])]
  }

  method TupleSent(sent: seq<seq<String>>) returns (tupled: seq<Sentence>)
    ensures tupled == Tupled(sent)
  {
    tupled := [];
    var i := 0;
    while i < |sent|
      invariant 0 <= i <= |sent|
      invariant tupled == Tupled(sent[..i])
    {
      assert sent[..i + 1][..i] == sent[..i];
      tupled := tupled + [PairAdjacent(sent[i])];
      i := i + 1;
    }
    assert sent[..i] == sent;
  }

  // ---------------------------------------------------------------------
  // sent_list

  /** How many tokens of `s` have the word `target`. */
  function Occurrences(s: Sentence, target: String): nat {
    Count(Firsts(s), target)
  }

  /** The sentences, each repeated once per token whose word is `target`. */
  function Selected(sents: seq<Sentence>, target: String): seq<Sentence> {
    if sents == [] then []
    else Selected(sents[..|sents| - 1], target) + Repeat(sents[|sents| - 1], Occurrences(sents[|sents| - 1], target))
  }

  lemma RepeatMultiplicity<T>(y: T, k: nat, x: T)
    ensures multiset(Repeat(y, k))[x] == if x == y then k else 0
  {
    if k > 0 {
      RepeatMultiplicity(y, k - 1, x);
    }
  }

  /** A sentence is selected exactly as many times as it occurs times the
      number of its tokens whose word is the target; in particular only
      sentences containing the target word are selected. */
  lemma {:induction false} SelectedMultiplicity(sents: seq<Sentence>, target: String, x: Sentence)
    ensures multiset(Selected(sents, target))[x] == multiset(sents)[x] * Occurrences(x, target)
  {
    if sents != [] {
      var init := sents[..|sents| - 1];
      var last := sents[|sents| - 1];
      assert sents == init + [last];
      SelectedStep(init, last, target, x);
      SelectedMultiplicity(init, target, x);
      if x == last {
        MulSucc(multiset(init)[x], Occurrences(x, target));
      }
    }
  }

  /** One more sentence adds its copies, and only to its own multiplicity. */
  lemma SelectedStep(init: seq<Sentence>, last: Sentence, target: String, x: Sentence)
    ensures multiset(Selected(init + [last], target))[x] ==
            multiset(Selected(init, target))[x] + if x == last then Occurrences(last, target) else 0
    ensures multiset(init + [last])[x] == multiset(init)[x] + if x == last then 1 else 0
  {
    assert (init + [last])[..|init|] == init;
    RepeatMultiplicity(last, Occurrences(last, target), x);
  }

  /** Every selected sentence contains a token with the target word. */
  lemma SelectedContainTarget(sents: seq<Sentence>, target: String, x: Sentence)
    requires x in Selected(sents, target)
    ensures target in Firsts(x)
  {
    SelectedMultiplicity(sents, target, x);
    CountPositive(Firsts(x), target);
  }

  /** `sent_list`: the selected sentences and a label `n` for each. */
  method SentList(sents: seq<Sentence>, target: String, n: int)
    returns (selected: seq<Sentence>, labels: seq<int>)
    ensures selected == Selected(sents, target)
    ensures labels == Repeat(n, |selected|)
  {
    selected := [];
    labels := [];
    var s := 0;
    while s < |sents|
      invariant 0 <= s <= |sents|
      invariant selected == Selected(sents[..s], target)
      invariant labels == Repeat(n, |selected|)
    {
      assert sents[..s + 1][..s] == sents[..s];
      RepeatAppend(n, |selected|, Occurrences(sents[s], target));
      selected, labels := SelectCopies(selected, labels, sents[s], target, n);
      s := s + 1;
    }
    assert sents[..s] == sents;
  }

  /** The inner loop of `sent_list`: one more copy of the sentence and one
      more label for each token whose word is the target. */
  method SelectCopies(selected: seq<Sentence>, labels: seq<int>, sentence: Sentence, target: String, n: int)
    returns (selected': seq<Sentence>, labels': seq<int>)
    ensures selected' == selected + Repeat(sentence, Occurrences(sentence, target))
    ensures labels' == labels + Repeat(n, Occurrences(sentence, target))
  {
    selected', labels' := selected, labels;
    var k := 0;
    while k < |sentence|
      invariant 0 <= k <= |sentence|
      invariant selected' == selected + Repeat(sentence, Occurrences(sentence[..k], target))
      invariant labels' == labels + Repeat(n, Occurrences(sentence[..k], target))
    {
      OccurrencesSnoc(sentence, k, target);
      var m := Occurrences(sentence[..k], target);
      if sentence[k].0 == target {
        AppendAssoc(selected, Repeat(sentence, m), [sentence]);
        AppendAssoc(labels, Repeat(n, m), [n]);
        selected' := selected' + [sentence];
        labels' := labels' + [n];
      }
      k := k + 1;
    }
    assert sentence[..k] == sentence;
  }

  lemma OccurrencesSnoc(sentence: Sentence, k: nat, target: String)
    requires k < |sentence|
    ensures Occurrences(sentence[..k + 1], target) ==
            Occurrences(sentence[..k], target) + if sentence[k].0 == target then 1 else 0
  {
    assert sentence[..k + 1][..k] == sentence[..k];
    assert Firsts(sentence[..k + 1]) == Firsts(sentence[..k]) + [sentence[k].0];
    CountSnoc(Firsts(sentence[..k]), sentence[k].0);
  }

  // ---------------------------------------------------------------------
  // The word-pair loop of `automate`

  /** `while len(words) > count`: take `words[count]`, then
      `words[count + 1]`; an odd-length list fails with an index error at
      index `len(words)` after the complete pairs. */
  method WordPairs(words: seq<String>) returns (pairs: seq<(String, String)>, failedAt: Option<nat>)
    ensures pairs == PairAdjacent(words)
    ensures failedAt == if |words| % 2 == 1 then Some(|words|) else None
  {
    pairs := [];
    failedAt := None;
    var count := 0;
    while count < |words|
      invariant 0 <= count <= |words| && count % 2 == 0
      invariant |pairs| == count / 2
      invariant forall i :: 0 <= i < |pairs| ==> pairs[i] == (words[2 * i], words[2 * i + 1])
      decreases |words| - count
    {
      var first := words[count];
      count := count + 1;
      if count >= |words| {
        failedAt := Some(count);
        break;
      }
      var second := words[count];
      count := count + 1;
      pairs := pairs + [(first, second)];
    }
  }
}
