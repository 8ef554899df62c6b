/**
 * Sentence-example extraction (Code/gen_sentence_examples.py): for every
 * word of a word list, the rows of the sentence table (word, tag, word,
 * tag, ...) that contain it, written out as a text file of `;;`-marked
 * blocks with one `word<TAB>tag` line per token.
 *
 * The sentence table (all_sent.csv) is passed in as parsed rows; the output
 * file is the returned text.
 */
module SentenceExamples {
  import opened Seqs
  import opened Text
  import ExampleParse

  /** A row of the sentence table: word, tag, word, tag, ... */
  type Row = seq<String>

  /** One word's examples: the word, then the rows that contain it. */
  datatype Block = Block(word: String, sentences: seq<Row>)

  // ---------------------------------------------------------------------
  // Specification functions

  /** The rows having `w` as one of their fields (word or tag), in table order. */
  function RowsWith(rows: seq<Row>, w: String): seq<Row> {
    if rows == [] then []
    else RowsWith(rows[..|rows| - 1], w) + (if w in rows[|rows| - 1] then [rows[|rows| - 1]] else [])
  }

  /** The line written for one (word, tag) pair. */
  function PairLine(p: String, k: String): String {
    p + "\t" + k + "\n"
  }

  /** What one pair contributes: its line, or nothing when its word
      starts with `;;`. */
  function PairOut(pair: (String, String)): String {
    if StartsWith(pair.0, ";;") then [] else PairLine(pair.0, pair.1)
  }

  /** The lines of a sentence's pairs; a pair whose word starts with `;;`
      is skipped. */
  function PairLines(pairs: seq<(String, String)>): (r: String)
    ensures r == [] || r[|r| - 1] == '\n'
  {
    if pairs == [] then []
    else PairLines(pairs[..|pairs| - 1]) + PairOut(pairs[|pairs| - 1])
  }

  /** The text written for one selected row. */
  function SentenceText(row: Row): String {
    "\n" + PairLines(PairAdjacent(row))
  }

  function SentencesText(rows: seq<Row>): (r: String)
    ensures r == [] || r[|r| - 1] == '\n'
  {
    if rows == [] then [] else SentencesText(rows[..|rows| - 1]) + SentenceText(rows[|rows| - 1])
  }

  /** A block after its `;;` marker. */
  function BlockBody(b: Block): String {
    b.word + "\n" + SentencesText(b.sentences) + "\n"
  }

  function BlockText(b: Block): String {
    ";;" + BlockBody(b)
  }

  /** The whole output file. */
  function OutputText(blocks: seq<Block>): String {
    if blocks == [] then [] else OutputText(blocks[..|blocks| - 1]) + BlockText(blocks[|blocks| - 1])
  }

  /** The fields of the kept pairs, as white-space splitting reads them back. */
  function KeptFields(pairs: seq<(String, String)>): seq<String> {
    if pairs == [] then []
    else
      var last := pairs[|pairs| - 1];
      KeptFields(pairs[..|pairs| - 1]) + (if StartsWith(last.0, ";;") then [] else [last.0, last.1])
  }

  function SentencesFields(rows: seq<Row>): seq<String> {
    if rows == [] then [] else SentencesFields(rows[..|rows| - 1]) + KeptFields(PairAdjacent(rows[|rows| - 1]))
  }

  /** Every field of every row is a non-empty token free of white space. */
  predicate AllWords(rows: seq<Row>) {
    forall i, j :: 0 <= i < |rows| && 0 <= j < |rows[i]| ==> IsWord(rows[i][j])
  }

  // ---------------------------------------------------------------------
  // The script's functions

  /** `clean_word_list`: one right-stripped entry per line, in order. */
  method CleanWordList(lines: seq<String>) returns (wordList: seq<String>)
    ensures wordList == RStripAll(lines)
    ensures forall i :: 0 <= i < |lines| ==> wordList[i] == RStrip(lines[i])
  {
    wordList := RStripLines(lines);
  }

  /** `word_in_sentence`: one block per word, in word-list order. */
  method WordInSentence(sentenceList: seq<Row>, wordList: seq<String>) returns (allSentences: seq<Block>)
    ensures |allSentences| == |wordList|
    ensures forall i :: 0 <= i < |wordList| ==>
              allSentences[i] == Block(wordList[i], RowsWith(sentenceList, wordList[i]))
  {
    allSentences := [];
    var i := 0;
    while i < |wordList|
      invariant 0 <= i <= |wordList|
      invariant |allSentences| == i
      invariant forall m :: 0 <= m < i ==> allSentences[m] == Block(wordList[m], RowsWith(sentenceList, wordList[m]))
    {
      var word := wordList[i];
      var examples: seq<Row> := [];
      var r := 0;
      while r < |sentenceList|
        invariant 0 <= r <= |sentenceList|
        invariant examples == RowsWith(sentenceList[..r], word)
      {
        assert sentenceList[..r + 1][..r] == sentenceList[..r];
        if word in sentenceList[r] {
          examples := examples + [sentenceList[r]];
        }
        r := r + 1;
      }
      assert sentenceList[..r] == sentenceList;
      allSentences := allSentences + [Block(word, examples)];
      i := i + 1;
    }
  }

  /** `write_output`: the text the successive writes produce. */
  method WriteOutput(allSentences: seq<Block>) returns (text: String)
    ensures text == OutputText(allSentences)
  {
    text := [];
    var b := 0;
    while b < |allSentences|
      invariant 0 <= b <= |allSentences|
      invariant text == OutputText(allSentences[..b])
    {
      var block := allSentences[b];
      ghost var before := text;
      text := text + ";;";
      text := text + block.word;
      text := text + "\n";
      ghost var head := text;
      var s := 0;
      while s < |block.sentences|
        invariant 0 <= s <= |block.sentences|
        invariant text == head + SentencesText(block.sentences[..s])
      {
        text := WriteSentence(text, block.sentences[s]);
        SentencesTextSnoc(block.sentences, s);
        AppendAssoc(head, SentencesText(block.sentences[..s]), SentenceText(block.sentences[s]));
        s := s + 1;
      }
      assert block.sentences[..s] == block.sentences;
      text := text + "\n";
      BlockWrites(before, block);
      OutputTextSnoc(allSentences, b);
      b := b + 1;
    }
    assert allSentences[..b] == allSentences;
  }

  /** The writes for one selected row of `write_output`: a newline, then a
      `word<TAB>tag` line per pair whose word does not start with `;;`. */
  method WriteSentence(text: String, row: Row) returns (out: String)
    ensures out == text + SentenceText(row)
  {
    out := text + "\n";
    ghost var start := out;
    var pairs := PairAdjacent(row);
    var q := 0;
    while q < |pairs|
      invariant 0 <= q <= |pairs|
      invariant out == start + PairLines(pairs[..q])
    {
      out := WritePair(out, pairs[q].0, pairs[q].1);
      PairLinesSnoc(pairs, q);
      AppendAssoc(start, PairLines(pairs[..q]), PairOut(pairs[q]));
      q := q + 1;
    }
    assert pairs[..q] == pairs;
    AppendAssoc(text, "\n", PairLines(pairs));
  }

  /** The body of the pair loop: the line of a pair whose word does not
      start with `;;`, or nothing. */
  method WritePair(text: String, p: String, k: String) returns (out: String)
    ensures out == text + PairOut((p, k))
  {
    out := text;
    if !StartsWith(p, ";;") {
      out := out + p;
      out := out + "\t";
      out := out + k;
      out := out + "\n";
      LineWrites(text, p, k);
    }
  }

  // ---------------------------------------------------------------------
  // Lemmas

  /** The four writes of a block, in order, give its text. */
  lemma BlockWrites(before: String, b: Block)
    ensures before + ";;" + b.word + "\n" + SentencesText(b.sentences) + "\n" == before + BlockText(b)
  {
  }

  /** The four writes of a pair line give the line. */
  lemma LineWrites(before: String, p: String, k: String)
    ensures before + p + "\t" + k + "\n" == before + PairLine(p, k)
  {
  }

  lemma BlockTextSplit(b: Block)
    ensures BlockText(b) == (";;" + b.word + "\n") + (SentencesText(b.sentences) + "\n")
  {
  }

  lemma PairLinesSnoc(pairs: seq<(String, String)>, q: nat)
    requires q < |pairs|
    ensures PairLines(pairs[..q + 1]) == PairLines(pairs[..q]) + PairOut(pairs[q])
  {
    assert pairs[..q + 1][..q] == pairs[..q];
  }

  lemma SentencesTextSnoc(rows: seq<Row>, s: nat)
    requires s < |rows|
    ensures SentencesText(rows[..s + 1]) == SentencesText(rows[..s]) + SentenceText(rows[s])
  {
    assert rows[..s + 1][..s] == rows[..s];
  }

  lemma OutputTextSnoc(blocks: seq<Block>, b: nat)
    requires b < |blocks|
    ensures OutputText(blocks[..b + 1]) == OutputText(blocks[..b]) + BlockText(blocks[b])
  {
    assert blocks[..b + 1][..b] == blocks[..b];
  }

  /** A block is selected exactly when it has the word among its fields,
      as often as it occurs in the table. */
  lemma {:induction false} RowsWithMultiplicity(rows: seq<Row>, w: String, x: Row)
    ensures multiset(RowsWith(rows, w))[x] == if w in x then multiset(rows)[x] else 0
  {
    if rows != [] {
      RowsWithMultiplicity(rows[..|rows| - 1], w, x);
      assert rows == rows[..|rows| - 1] + [rows[|rows| - 1]];
    }
  }

  /** The output is the blocks' texts one after another. */
  lemma {:induction false} OutputTextAppend(a: seq<Block>, c: seq<Block>)
    ensures OutputText(a + c) == OutputText(a) + OutputText(c)
  {
    if c != [] {
      var init := c[..|c| - 1];
      var last := c[|c| - 1];
      assert (a + c)[..|a + c| - 1] == a + init;
      assert (a + c)[|a + c| - 1] == last;
      OutputTextLast(a + c);
      OutputTextLast(c);
      OutputTextAppend(a, init);
      AppendAssoc(OutputText(a), OutputText(init), BlockText(last));
    } else {
      assert a + c == a;
    }
  }

  lemma OutputTextLast(blocks: seq<Block>)
    requires blocks != []
    ensures OutputText(blocks) == OutputText(blocks[..|blocks| - 1]) + BlockText(blocks[|blocks| - 1])
  {
  }

  /** Every block starts with `;;`, its word and a newline and ends with a
      newline. */
  lemma BlockFraming(b: Block)
    ensures StartsWith(BlockText(b), ";;" + b.word + "\n")
    ensures BlockText(b)[|BlockText(b)| - 1] == '\n'
  {
    var head := ";;" + b.word + "\n";
    var tail := SentencesText(b.sentences) + "\n";
    BlockTextSplit(b);
    assert (head + tail)[..|head|] == head;
    assert (head + tail)[|head + tail| - 1] == tail[|tail| - 1] == '\n';
  }

  /** White-space splitting reads back the word and tag of each written
      line: the lines of a sentence give the fields of its complete pairs,
      without the pairs whose word starts with `;;` and without an odd
      trailing field. */
  lemma {:induction false} PairLinesFields(pairs: seq<(String, String)>)
    requires forall i :: 0 <= i < |pairs| ==> IsWord(pairs[i].0) && IsWord(pairs[i].1)
    ensures Words(PairLines(pairs)) == KeptFields(pairs)
  {
    if pairs != [] {
      var init := pairs[..|pairs| - 1];
      var last := pairs[|pairs| - 1];
      assert forall i :: 0 <= i < |init| ==> init[i] == pairs[i];
      PairLinesFields(init);
      WordsAppend(PairLines(init), PairOut(last));
      if !StartsWith(last.0, ";;") {
        LineFields(last.0, last.1);
      } else {
        assert Words(PairOut(last)) == [];
      }
    }
  }

  /** One written line reads back as its word and its tag. */
  lemma LineFields(p: String, k: String)
    requires IsWord(p) && IsWord(k)
    ensures Words(PairLine(p, k)) == [p, k]
  {
    assert PairLine(p, k) == (p + "\t") + (k + "\n");
    WordsAppend(p + "\t", k + "\n");
    WordThenSpace(p, '\t');
    WordThenSpace(k, '\n');
  }

  lemma SentenceFields(row: Row)
    requires forall i :: 0 <= i < |row| ==> IsWord(row[i])
    ensures Words(SentenceText(row)) == KeptFields(PairAdjacent(row))
  {
    var pairs := PairAdjacent(row);
    PairLinesFields(pairs);
    WordsAppend("\n", PairLines(pairs));
    assert Words("\n") == [];
  }

  lemma {:induction false} SentencesTextFields(rows: seq<Row>)
    requires AllWords(rows)
    ensures Words(SentencesText(rows)) == SentencesFields(rows)
  {
    if rows != [] {
      var init := rows[..|rows| - 1];
      SentencesTextFields(init);
      WordsAppend(SentencesText(init), SentenceText(rows[|rows| - 1]));
      SentenceFields(rows[|rows| - 1]);
    }
  }

  /** Splitting a block body on white space gives the block's word first and
      then the kept fields of its rows: the word is not separated from the
      fields that follow it. */
  lemma BodyFields(b: Block)
    requires IsWord(b.word) && AllWords(b.sentences)
    ensures Words(BlockBody(b)) == [b.word] + SentencesFields(b.sentences)
  {
    var rest := SentencesText(b.sentences);
    assert BlockBody(b) == (b.word + "\n") + (rest + "\n");
    WordsAppend(b.word + "\n", rest + "\n");
    WordThenSpace(b.word, '\n');
    WordsAppend(rest, "\n");
    SentencesTextFields(b.sentences);
    assert Words("\n") == [];
  }

  /** Reading one written block back with the classifiers' `preprocess`
      (when neither `;;` nor "punctuation" occurs inside it) gives an empty
      token list for the text before the marker, then one token list that
      starts with the block's word followed by the kept fields. */
  lemma ReparseBlock(b: Block)
    requires IsWord(b.word) && AllWords(b.sentences)
    requires !Contains(BlockBody(b), ";;") && !Contains(BlockBody(b), "punctuation")
    ensures ExampleParse.Preprocessed(BlockText(b)) == [[], [b.word] + SentencesFields(b.sentences)]
  {
    ExampleParse.PreprocessOneChunk(BlockBody(b));
    BodyFields(b);
  }

  /** Consequently, for such a block, `tuple_sent` pairs the block's word
      with the first written field: the first pair read back is not a
      sentence's (word, tag) pair. */
  lemma ReparseShiftsPairs(b: Block)
    requires IsWord(b.word) && AllWords(b.sentences)
    requires !Contains(BlockBody(b), ";;") && !Contains(BlockBody(b), "punctuation")
    requires |SentencesFields(b.sentences)| >= 1
    ensures var pairs := ExampleParse.Tupled(ExampleParse.Preprocessed(BlockText(b)));
            |pairs| == 2 && pairs[0] == [] && |pairs[1]| >= 1 &&
            pairs[1][0] == (b.word, SentencesFields(b.sentences)[0])
  {
    ReparseBlock(b);
  }
}
