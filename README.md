# ICoSC confusion sets — a verified model

ICoSC is a set of Python scripts that build Icelandic confusion sets. A confusion set is a pair of word forms that differ by one spelling substitution, such as `i` against `y`. The scripts then turn the corpus sentences that contain such words into training data for classifiers.

This project models the list and string logic of those scripts in Dafny and proves what each step delivers:

- **Discovery** (`Code/gen_wordlist.py`, module `Wordlist`): a chain of filters over the inflection lexicon.
  - keep the forms attested in the frequency table;
  - keep the forms that contain candidate 1;
  - make two substitution variants per form;
  - keep the variants that are real words and occur in a sentence;
  - add counterparts, drop repeats, and keep adjacent pairs.
- **Profiling** (`Code/gen_spreads.py`, module `Spreads`):
  - gather the frequency rows per word, with a placeholder row for unknown words;
  - total the counts per form;
  - pair the forms up;
  - flag each pair's tag sets as grammatically disjoint and/or identical;
  - lay out the CSV rows.
- **Sentence examples** (`Code/gen_sentence_examples.py`, module `SentenceExamples`): the sentence rows that contain each word, rendered as `;;word` blocks of `word<TAB>tag` lines.
- **Feature builders** (the three classifier scripts):
  - `ExampleParse` re-reads the example file: split on `;;`, then on `punctuation`, then on white space; pair tokens positionally; select sentences per target word.
  - `DecisionTreeBow` builds bag-of-words count matrices over a first-seen vocabulary.
  - `LogisticBow` prepares the target-free sentences handed to gensim.
  - `Grammatical` builds the 16-slot 0/1 vector from the tags around the target and stacks the class matrices.
- **Shared modules:**
  - `Seqs` holds the Python list idioms as specification functions (filter, de-duplicate in first-seen order, `zip(s[::2], s[1::2])`, count, remove).
  - `Text` holds the string built-ins the scripts rely on (`rstrip`, `lower`, `find`, `replace(a, b, 1)`, `split(sep)`, `split()`, `[::-1]`).

Every script function that loops and appends is a Dafny `method` whose loop is proved against a recursive specification function. Lemmas then prove what the scripts promise about those functions. File contents and parsed CSV/TSV rows are parameters; the scripts' own outputs are return values. The sixteen separate `if`/`else` slot writes of `feature_extraction` are one loop over the slot index in `Grammatical.WriteSlots`; the vector they leave is the same.

The behaviours below are kept as the scripts have them, not corrected.

**Discovery (`gen_wordlist.py`):**
- The adjacent-pair loop of `check_things` (`Code/gen_wordlist.py:89-94`) advances by one position (`i += 1`), although its comment at line 87 speaks of "only two words per pair" and "no triples". The model follows the code. `Wordlist.PairCheckCanRepeatAWord` shows a word ending up in two pairs.
- The backwards variant searches for candidate 1 as written inside the reversed word. `Text.BackwardReplaceIsReplaceLast` and `Text.BackwardReplaceMissesTwoCharCandidate` state what that does.

**Grammatical features (`logisticregression_grammatical.py`):**
- The regular expressions are character classes, so `|` belongs to every class.
- The sentinel tag `none` starts with `n`.
- At index 0 the left context wraps around to the last token.
- The last occurrence of the target decides the context.

**Example selection and matrices:**
- `sent_list` repeats a sentence once per occurrence of the target.
- The grammatical matrices keep their zero seed rows. The decision-tree matrix deletes its seed row.
- When neither word of a pair has an example sentence, the decision-tree matrix is still the 1-D seed, and `np.delete` raises IndexError (`Code/decisiontree_bagofwords.py:97`). That ends `automate` at that pair, unless a scikit-learn call has already raised at an earlier pair; those calls are not modelled (see "## Left out"). `DecisionTreeBow.Automate` stops at the first pair without examples and reports it.

**Re-reading the example file:**
- `write_output` drops tokens that start with `;;`.
- Re-reading an example block makes the header word the first token of the block's first piece. So the word/tag pairing is shifted by one from the start of the block up to its first `punctuation` tag, where `preprocess` splits the text; each later piece starts on a word, pairs correctly and loses its final punctuation word. `SentenceExamples.ReparseShiftsPairs` proves the shift at the start of a block that contains no `punctuation`.

## Model

| member | source | states |
|---|---|---|
| Text.RStrip | Code/gen_spreads.py:10 | the result is a prefix of the input, does not end in white space, and only white space was removed |
| Text.Lower | Code/gen_wordlist.py:13 | same length, every character lower-cased one for one |
| Text.FindIsFirstMatch | Code/gen_wordlist.py:46 | `find` reports a match, no earlier match exists, and -1 exactly when the string does not contain the pattern |
| Text.ReplaceFirstAtFind | Code/gen_wordlist.py:46 | `replace(a, b, 1)` splices `b` in at the position `find` reports and leaves a string without `a` unchanged |
| Text.Reverse | Code/gen_wordlist.py:47-48 | same length, element i is element n-1-i of the input |
| Text.ReverseReverse | Code/gen_wordlist.py:47-48 | reversing twice gives the input back |
| Text.BackwardReplaceIsReplaceLast | Code/gen_wordlist.py:47-48 | reverse / replace / reverse equals replacing the rightmost occurrence of the reversed candidate by the reversed substitute |
| Text.BackwardReplaceSingleChars | Code/gen_wordlist.py:47-48 | for one-character candidates the backwards variant replaces the rightmost occurrence |
| Text.BackwardReplaceMissesTwoCharCandidate | Code/gen_wordlist.py:47-48 | with candidates "ei"/"ey", `replace` changes "leit" but the backwards variant leaves it unchanged |
| Text.SplitCount | Code/decisiontree_bagofwords.py:19-22 | `split(sep)` yields one more piece than there are separator occurrences |
| Text.JoinSplit | Code/decisiontree_bagofwords.py:19-22 | joining the pieces of `split(sep)` with `sep` gives back the string |
| Text.SplitWithoutSep | Code/decisiontree_bagofwords.py:19-22 | a string free of the separator splits into itself alone |
| Text.SplitLeadingSep | Code/decisiontree_bagofwords.py:19 | a leading separator splits off an empty first piece |
| Text.TokenEnd | Code/decisiontree_bagofwords.py:24 | the leading run of non-space characters ends at the input's end or at a space |
| Text.WordsAreWords | Code/decisiontree_bagofwords.py:24 | `split()` yields non-empty tokens without white space and loses only white space |
| Text.WordsAppend | Code/decisiontree_bagofwords.py:24 | `split()` distributes over a concatenation whose left part ends in white space |
| Text.WordThenSpace | Code/decisiontree_bagofwords.py:24 | a word followed by a space splits off as exactly that word |
| Text.RStripAll | Code/decisiontree_bagofwords.py:108-109 | one entry per line, each the right-stripped line |
| Text.RStripLines | Code/decisiontree_bagofwords.py:107-109 | the read loop yields each line right-stripped, in order |
| Seqs.FirstIndex | Code/gen_wordlist.py:84-86 | the index holds the element and no earlier index does |
| Seqs.FilterInMembers | Code/gen_wordlist.py:26-28 | `[x for x in s if x in t]` holds exactly the elements of `s` that are in `t` |
| Seqs.FilterInMultiplicity | Code/gen_wordlist.py:26-28 | the filter keeps every occurrence of a member of `t` and none of anything else |
| Seqs.Dedup | Code/gen_wordlist.py:83-86 | the de-duplicated list has no repeats |
| Seqs.DedupMembers | Code/gen_wordlist.py:83-86 | de-duplication loses no element and invents none |
| Seqs.DedupFirstSeenOrder | Code/gen_wordlist.py:83-86 | de-duplication keeps the order in which elements are first seen |
| Seqs.PairAdjacent | Code/gen_spreads.py:61-62 | `zip(s[::2], s[1::2])` has ⌊n/2⌋ pairs, pair i being elements 2i and 2i+1 |
| Seqs.Firsts | Code/decisiontree_bagofwords.py:44 | the first components, one per pair, in order |
| Seqs.FlattenAppend | Code/decisiontree_bagofwords.py:54-65 | concatenating the words of two lists of sentences equals concatenating the two concatenations |
| Seqs.Repeat | Code/logisticregression_grammatical.py:186-187 | `np.zeros(n)`/`np.ones(n)`: n entries, all equal to the value |
| Seqs.CountPositive | Code/decisiontree_bagofwords.py:43-47 | a word's count is positive exactly when it occurs |
| Seqs.Without | Code/logisticregression_bagofwords.py:55-57 | removing a word shortens the list by its number of occurrences |
| Seqs.WithoutMembers | Code/logisticregression_bagofwords.py:55-57 | after removal exactly the other words remain |
| Seqs.WithoutKeepsOthers | Code/logisticregression_bagofwords.py:55-57 | removal keeps the count of every other word |
| Wordlist.GrabMiiWords | Code/gen_wordlist.py:8-15 | one entry per lexicon line, right-stripped and lower-cased, in order |
| Wordlist.WordInAllfreq | Code/gen_wordlist.py:18-29 | an IndexError exactly when a frequency row is empty; otherwise the lexicon words in the first column, in lexicon order with repeats |
| Wordlist.FindCandidate1 | Code/gen_wordlist.py:32-38 | exactly the attested words containing candidate 1, in order |
| Wordlist.WithSubstring | Code/gen_wordlist.py:32-38 | a word is kept iff it is in the list and contains candidate 1 |
| Wordlist.CheckCandidate2 | Code/gen_wordlist.py:41-51 | 2·n entries: entry 2k is the first-occurrence substitution of word k, entry 2k+1 the backwards variant, which equals replacing the rightmost reversed candidate |
| Wordlist.CheckIfRealWord | Code/gen_wordlist.py:54-61 | the lexicon words, in lexicon order with repeats, that are among the variants |
| Wordlist.HitsMembers | Code/gen_wordlist.py:63-73 | a word is met by the row scan iff it is a real word and a field of some sentence row |
| Wordlist.CheckSent | Code/gen_wordlist.py:63-73 | no repeats, first-met order of the row scan, and a word is kept iff it is a real word found in some sentence row |
| Wordlist.Counterparts | Code/gen_wordlist.py:77-82 | each word followed by its counterpart when that is a candidate-1 word; nothing else is added |
| Wordlist.ExpandMembers | Code/gen_wordlist.py:77-82 | every entry of `cslist` is a sentence word or a candidate-1 word |
| Wordlist.DropRepeats | Code/gen_wordlist.py:83-86 | `cs_list` has no repeats, keeps first-seen order and has the same members as `cslist` |
| Wordlist.AdjacentPairs | Code/gen_wordlist.py:87-94 | even length; each kept pair is adjacent in `cs_list` and its second word is the first with candidate 2 replaced back by candidate 1 |
| Wordlist.PairPass | Code/gen_wordlist.py:87-94 | the pair loop's result has even length, every pair is adjacent in `cs_list` and is a substitution pair |
| Wordlist.PairCheckMembers | Code/gen_wordlist.py:87-94 | every word of the pair list comes from `cs_list` |
| Wordlist.PairCheckCanRepeatAWord | Code/gen_wordlist.py:88-94 | since the index moves on by one, a word can belong to two pairs |
| Wordlist.CheckThings | Code/gen_wordlist.py:75-95 | even length, every pair a substitution pair, every word a sentence word or a candidate-1 word |
| Wordlist.Discover | Code/gen_wordlist.py:109-115 | fails exactly on an empty frequency row. Otherwise: an even-length list of lexicon words; in each pair the second word is the first with candidate 2 replaced by candidate 1; each word is an attested candidate-1 word, or a sentence word that is a substitution variant of one |
| Spreads.CollectWords | Code/gen_spreads.py:5-12 | one right-stripped entry per line, in order |
| Spreads.RowsOf | Code/gen_spreads.py:22-25 | the collected rows all carry the looked-up form |
| Spreads.RowsOfMembers | Code/gen_spreads.py:22-27 | no row is found exactly when the form is absent from the table |
| Spreads.FreqsForShape | Code/gen_spreads.py:18-27 | a known word yields its table rows; an unknown one the single placeholder row; never nothing |
| Spreads.CollectFreqs | Code/gen_spreads.py:14-28 | the groups in word-list order, and a form occurs in the result iff it is a listed word |
| Spreads.AddRowsOf | Code/gen_spreads.py:22-25 | the table rows of the word, in table order, and whether there were any |
| Spreads.CollectedForms | Code/gen_spreads.py:14-28 | a form is in the collected rows iff it is in the word list |
| Spreads.CollectedTotal | Code/gen_spreads.py:14-28 | a word listed k times contributes k times its table total |
| Spreads.SumCountsAppend | Code/gen_spreads.py:34-40 | totals add up over concatenated row lists |
| Spreads.FreqsForTotal | Code/gen_spreads.py:18-27 | a word's group adds its table total to its own form and nothing to others |
| Spreads.FreqDict | Code/gen_spreads.py:30-41 | the keys are the distinct forms in first-seen order, each mapped to the sum of its counts |
| Spreads.TotalsStep | Code/gen_spreads.py:34-40 | one more row adds its count to its form's total, or makes a new key at the end |
| Spreads.KeysAreDistinctWords | Code/gen_spreads.py:30-41 | the dictionary keys are the word list without repeats |
| Spreads.TagCountsOf | Code/gen_spreads.py:54-58 | one (tag, count) per table row of the form |
| Spreads.TagsOf | Code/gen_spreads.py:54-57 | one tag per table row of the form |
| Spreads.CreateConfusionSets | Code/gen_spreads.py:43-63 | ⌊n/2⌋ pairs; pair i holds keys 2i and 2i+1 with their totals, tag/count tails and tag lists |
| Spreads.KeyHasTags | Code/gen_spreads.py:26-27 | every key has at least one tag (a placeholder contributes "n/a") |
| Spreads.FlagsMeaning | Code/gen_spreads.py:71-82 | disjoint is "True" iff no tag is shared; identical is "True" iff the tag sets are equal |
| Spreads.FlagsExclusive | Code/gen_spreads.py:71-82 | when some tag exists the two flags are never both "True" |
| Spreads.PairsNeverBothTrue | Code/gen_spreads.py:26-27 | no confusion set is flagged both disjoint and identical |
| Spreads.IdenticalOrDisjoint | Code/gen_spreads.py:66-84 | as many entries as the shorter input; entry i is pair i with its disjoint and identical flags |
| Spreads.RowCells | Code/gen_spreads.py:93-101 | 8 cells: word 1, total, tail, word 2, total, tail, disjoint, identical |
| Spreads.WriteOutput | Code/gen_spreads.py:87-109 | a header row and then one row per confusion set, laid out as `RowCells` |
| Spreads.TableRows | Code/gen_spreads.py:91-103 | row i has 8 cells naming keys 2i-2 and 2i-1, and its flags are never both "True" |
| Spreads.Profile | Code/gen_spreads.py:115-121 | header plus ⌊k/2⌋ rows for k distinct words; row i pairs distinct words 2i-2 and 2i-1; never both flags "True" |
| SentenceExamples.CleanWordList | Code/gen_sentence_examples.py:4-11 | same length and order, every entry right-stripped |
| SentenceExamples.WordInSentence | Code/gen_sentence_examples.py:24-34 | one block per word, in order: the word, then the rows holding it as any field, in table order |
| SentenceExamples.RowsWithMultiplicity | Code/gen_sentence_examples.py:30-32 | a row is selected as often as it occurs in the table when it holds the word, never otherwise |
| SentenceExamples.PairLines | Code/gen_sentence_examples.py:46-53 | the pair lines are empty or end in a newline |
| SentenceExamples.SentencesText | Code/gen_sentence_examples.py:44-53 | the sentences' text is empty or ends in a newline |
| SentenceExamples.WriteOutput | Code/gen_sentence_examples.py:37-54 | the file text is the blocks' texts in order |
| SentenceExamples.WriteSentence | Code/gen_sentence_examples.py:45-53 | a sentence adds a newline and then its kept pair lines |
| SentenceExamples.WritePair | Code/gen_sentence_examples.py:46-53 | a pair adds "word TAB tag NEWLINE", or nothing when its word starts with `;;` |
| SentenceExamples.OutputTextAppend | Code/gen_sentence_examples.py:40-54 | the output for two block lists is the concatenation of their outputs |
| SentenceExamples.BlockFraming | Code/gen_sentence_examples.py:41-43 | every block starts with `;;`, the word and a newline, and ends with a newline |
| SentenceExamples.LineFields | Code/gen_sentence_examples.py:50-53 | a pair line reads back as exactly its word and tag |
| SentenceExamples.PairLinesFields | Code/gen_sentence_examples.py:46-53 | the pair lines read back as the fields of the pairs not starting with `;;` |
| SentenceExamples.SentenceFields | Code/gen_sentence_examples.py:46 | a sentence reads back as its kept pairs; an odd trailing field is never written |
| SentenceExamples.SentencesTextFields | Code/gen_sentence_examples.py:44-53 | all sentences read back as their kept fields, in order |
| SentenceExamples.BodyFields | Code/gen_sentence_examples.py:42-54 | a block body reads back as the word followed by its sentences' kept fields |
| SentenceExamples.ReparseBlock | Code/decisiontree_bagofwords.py:15-26 | for a block whose body contains neither `;;` nor `punctuation`, re-reading it gives an empty piece and then the word followed by the kept fields |
| SentenceExamples.ReparseShiftsPairs | Code/decisiontree_bagofwords.py:29-34 | for a block without `;;` or `punctuation` inside, the first pair read back is (header word, first written field): the pairing is shifted |
| ExampleParse.PieceTokens | Code/decisiontree_bagofwords.py:23-25 | one token list per piece, each its white-space split |
| ExampleParse.ChunkTokensLength | Code/decisiontree_bagofwords.py:21-25 | one token list per piece of every chunk |
| ExampleParse.PreprocessCount | Code/decisiontree_bagofwords.py:15-26 | per `;;` chunk, one more list than "punctuation" occurrences |
| ExampleParse.PreprocessTokensAreWords | Code/decisiontree_bagofwords.py:24 | every token is non-empty and free of white space |
| ExampleParse.PreprocessOneChunk | Code/decisiontree_bagofwords.py:18-26 | a single marked chunk gives the empty leading list and its tokens |
| ExampleParse.Preprocess | Code/decisiontree_bagofwords.py:15-26 | the loops compute the re-read sentences |
| ExampleParse.AddPieces | Code/decisiontree_bagofwords.py:22-25 | each piece of a chunk adds its white-space tokens, in order |
| ExampleParse.Tupled | Code/decisiontree_bagofwords.py:29-34 | a list of n tokens becomes ⌊n/2⌋ pairs (token 2j, token 2j+1) |
| ExampleParse.TupleSent | Code/decisiontree_bagofwords.py:29-34 | the loop computes the positional pairing |
| ExampleParse.SelectedMultiplicity | Code/decisiontree_bagofwords.py:42-47 | a sentence is selected once per occurrence of the target in it, per copy in the input |
| ExampleParse.SelectedContainTarget | Code/decisiontree_bagofwords.py:42-47 | every selected sentence holds the target word |
| ExampleParse.SentList | Code/decisiontree_bagofwords.py:37-48 | the selected sentences, and a label list of the same length, all equal to n |
| ExampleParse.SelectCopies | Code/decisiontree_bagofwords.py:43-47 | a sentence is appended once per occurrence of the target, each time with label n |
| ExampleParse.WordPairs | Code/decisiontree_bagofwords.py:110-115 | words 2i and 2i+1 form pair i; an odd list fails at index `count` = its length |
| DecisionTreeBow.WordsOnly | Code/decisiontree_bagofwords.py:54-59 | one word-only sentence per sentence, its tokens' words in order |
| DecisionTreeBow.StripTags | Code/decisiontree_bagofwords.py:54-59 | the word-only sentences, and the vocab is their words concatenated |
| DecisionTreeBow.StripSentence | Code/decisiontree_bagofwords.py:55-59 | one sentence's words, each also appended to the vocabulary |
| DecisionTreeBow.RemovePostag | Code/decisiontree_bagofwords.py:50-66 | both lists' word-only sentences in order, the vocab their concatenated words |
| DecisionTreeBow.CountStep | Code/decisiontree_bagofwords.py:80-83 | one counting step keeps the key order and the counts in step with the words read |
| DecisionTreeBow.CountVocab | Code/decisiontree_bagofwords.py:76-87 | the keys are the non-target words in first-seen order, each mapped to its count |
| DecisionTreeBow.VocabListProperties | Code/decisiontree_bagofwords.py:76-87 | `vocab_list` has no repeats and holds exactly the vocab words other than the two targets |
| DecisionTreeBow.CountRow | Code/decisiontree_bagofwords.py:91-95 | entry i is the count of vocabulary word i in the sentence |
| DecisionTreeBow.GenerateBow | Code/decisiontree_bagofwords.py:75-98 | the vocabulary as above; after the seed row is deleted, one count row per sentence, or the 1-D remnant / IndexError when there are none |
| DecisionTreeBow.BowRowSum | Code/decisiontree_bagofwords.py:91-95 | a row's entries add up to the number of the sentence's words that are in the vocabulary |
| DecisionTreeBow.FilterInIsKept | Code/decisiontree_bagofwords.py:76-79 | the vocabulary words of a sentence are its non-target words |
| DecisionTreeBow.RowTotal | Code/decisiontree_bagofwords.py:89-97 | each row sums to the sentence's number of non-target words |
| DecisionTreeBow.BuildDataset | Code/decisiontree_bagofwords.py:117-125 | the loop body computes the pair's matrix, labels and vocabulary |
| DecisionTreeBow.LabelsMatchRows | Code/decisiontree_bagofwords.py:120-125 | zeros for word 1's sentences then ones for word 2's, one label per matrix row; no sentences makes np.delete fail |
| DecisionTreeBow.PairDatasetsAt | Code/decisiontree_bagofwords.py:111-125 | dataset i is built for pair i |
| DecisionTreeBow.Reached | Code/decisiontree_bagofwords.py:97-123 | the number of datasets before the first one whose seed deletion fails; every earlier one succeeds, and the one at that index fails |
| DecisionTreeBow.BuildPair | Code/decisiontree_bagofwords.py:111-121 | one pass of the loop body gives the i-th pair's dataset |
| DecisionTreeBow.BuildAll | Code/decisiontree_bagofwords.py:97-125 | the pairs' datasets in order, up to the first failing one; that pair's index is reported, or nothing when all are built |
| DecisionTreeBow.Automate | Code/decisiontree_bagofwords.py:97-125 | the datasets of the stripped word pairs up to the first pair without examples, which is reported as the failure; with no such pair, an odd list fails at its length (the classifier calls are assumed to return) |
| DecisionTreeBow.AutomatePairs | Code/decisiontree_bagofwords.py:107-123 | each dataset built before the stop is for lines 2i and 2i+1, right-stripped; at least one of the two words has examples, and there is one label per matrix row |
| DecisionTreeBow.AutomateStops | Code/decisiontree_bagofwords.py:97-123 | at most ⌊n/2⌋ pairs are built; the pair it stops at has no example sentence for either word (the classifier calls are assumed to return) |
| DecisionTreeBow.StopPair | Code/decisiontree_bagofwords.py:97-121 | a pair whose seed deletion fails has no example sentences for either word |
| DecisionTreeBow.DatasetFails | Code/decisiontree_bagofwords.py:97-121 | the seed deletion fails iff neither word has an example sentence; otherwise the rows and labels match one for one |
| LogisticBow.WithoutTarget | Code/logisticregression_bagofwords.py:53-58 | one sentence per input sentence, its words without the target |
| LogisticBow.DropTarget | Code/logisticregression_bagofwords.py:53-58 | the loop drops the target's tokens from every sentence |
| LogisticBow.DropInSentence | Code/logisticregression_bagofwords.py:55-58 | one sentence keeps its words other than the target, in order |
| LogisticBow.RemovePostag | Code/logisticregression_bagofwords.py:50-65 | list 1 without word 1, then list 2 without word 2 |
| LogisticBow.DropsOnlyTarget | Code/logisticregression_bagofwords.py:50-65 | |list1|+|list2| sentences; each loses exactly its own target's tokens and keeps every other word's count |
| LogisticBow.InputSentencesShrink | Code/logisticregression_bagofwords.py:92-97 | every handed-on sentence is shorter than its source sentence |
| LogisticBow.BuildInput | Code/logisticregression_bagofwords.py:92-99 | the loop body computes the pair's sentences and labels |
| LogisticBow.LabelsMatchSentences | Code/logisticregression_bagofwords.py:95-99 | one label per sentence: zeros for list 1, then ones for list 2 |
| LogisticBow.BuildAll | Code/logisticregression_bagofwords.py:86-99 | one input per pair, in order: input i is built for pair i |
| LogisticBow.Automate | Code/logisticregression_bagofwords.py:75-99 | one input per consecutive word pair; an odd list fails at its length (the classifier calls are assumed to return) |
| LogisticBow.AutomatePairs | Code/logisticregression_bagofwords.py:82-97 | ⌊n/2⌋ inputs, input i for lines 2i and 2i+1 right-stripped |
| Grammatical.LastIndex | Code/logisticregression_grammatical.py:50-52 | the last index whose word is the target, or none when the target is absent |
| Grammatical.RightLeftContext | Code/logisticregression_grammatical.py:47-63 | the loop's final context is the one at the last occurrence (none when absent) |
| Grammatical.ContextMeaning | Code/logisticregression_grammatical.py:50-61 | a context exists iff the target occurs; it is taken at the last occurrence; the left is `sent[-1]` at index 0; right is the sentinel iff the target is last and left-two iff the index is below 2 |
| Grammatical.ContextExists | Code/logisticregression_grammatical.py:50-63 | a context is found iff the target word occurs in the sentence |
| Grammatical.Features | Code/logisticregression_grammatical.py:68 | 16 entries, each 0 or 1 |
| Grammatical.WriteSlots | Code/logisticregression_grammatical.py:86-149 | the 16 slot writes give each match's 0/1 flag in slot order |
| Grammatical.FlagsOf | Code/logisticregression_grammatical.py:86-149 | entry k is 1 iff match k holds |
| Grammatical.FeaturesInOrder | Code/logisticregression_grammatical.py:70-149 | the features are the 16 regex tests in the script's slot order |
| Grammatical.FeatureExtraction | Code/logisticregression_grammatical.py:66-151 | the vector of the last occurrence's context, or none when the target is absent |
| Grammatical.SlotSets | Code/logisticregression_grammatical.py:70-85 | slot i is 1 iff its tag's first character is in the slot's character class (`|` included) |
| Grammatical.SlotDependence | Code/logisticregression_grammatical.py:70-85 | slots 10 and 11 depend only on the left-two tag, the others only on the left and right tags |
| Grammatical.SentinelCaseSlots | Code/logisticregression_grammatical.py:55-77 | a right sentinel "none" sets the nominal, nominative and oblique right slots 1, 5 and 7 |
| Grammatical.SentinelVerbParticleSlots | Code/logisticregression_grammatical.py:55-79 | a right sentinel clears the finite-verb and particle right slots 3 and 9 |
| Grammatical.SentinelInfinitiveSlots | Code/logisticregression_grammatical.py:55-85 | a right sentinel sets the infinitive right slots 13 and 15 |
| Grammatical.SentinelLeftTwoSlots | Code/logisticregression_grammatical.py:58-81 | a left-two sentinel sets the feminine and masculine slots 10 and 11 |
| Grammatical.ZeroRow | Code/logisticregression_grammatical.py:176-177 | the seed row: 16 zeros |
| Grammatical.ClassMatrix | Code/logisticregression_grammatical.py:178-183 | the loop stacks the feature rows on the seed row |
| Grammatical.MatrixNone | Code/logisticregression_grammatical.py:178-183 | once a sentence lacks the target, the matrix fails |
| Grammatical.MatrixOfSelected | Code/logisticregression_grammatical.py:174-183 | for selected sentences the matrix has 1+n rows: the zero seed row, then the features of each sentence's context |
| Grammatical.StackShape | Code/logisticregression_grammatical.py:184-189 | stacking keeps both seed rows and labels N1 zeros followed by N2 ones |
| Grammatical.BuildDataset | Code/logisticregression_grammatical.py:172-189 | the loop body computes the stacked data and labels |
| Grammatical.DatasetShape | Code/logisticregression_grammatical.py:172-189 | always built; N1+N2 rows and labels with N = selected sentences + 1; zero rows at 0 and N1; labels 0 below N1, 1 from there |
| Grammatical.BuildAll | Code/logisticregression_grammatical.py:165-189 | one dataset per pair, in order: dataset i is built for pair i |
| Grammatical.Automate | Code/logisticregression_grammatical.py:154-189 | one dataset per consecutive word pair; an odd list fails at its length (the classifier calls are assumed to return) |
| Grammatical.AutomatePairs | Code/logisticregression_grammatical.py:161-189 | ⌊n/2⌋ datasets, dataset i for lines 2i and 2i+1 right-stripped |

## Left out

- File handling, CSV/TSV parsing and quoting, `argparse` and `time.clock`: contents arrive as parameters (lines, rows), outputs are return values.
- `write_output` of `Code/gen_wordlist.py` (lines 97-101): it only writes each pair word on its own line.
- `total_sentence_list` of `Code/gen_sentence_examples.py`: it only reads the sentence table, which is a parameter here.
- `Code/gen_totalfreqs_totalsents.py` is not part of this model: it is XML parsing with library counters and sorting.
- Classifier training, `cross_val_score`, `preprocessing.scale`, the averaged fold scores, `model.coef_` and plotting: foreign calls and floating point. The model assumes every one of these calls returns; the lines below name the members that this assumption affects.
- DecisionTreeBow.Automate: assumes the four `cross_val_score(..., cv=10)` calls (`Code/decisiontree_bagofwords.py:129-132`) return. Their stratified 10-fold split raises ValueError when each class has fewer than 10 rows, and that ends `automate` at that pair. The model goes on to the first pair without examples.
- DecisionTreeBow.AutomateStops: the pair it names is the first pair without examples. The script stops earlier if a pair before it has between 1 and 9 rows in each class, through the ValueError above, which is not modelled.
- SentenceExamples.ReparseBlock: proved only for a block whose body contains neither `;;` nor `punctuation`. The pieces that a block with punctuation tags splits into are not stated.
- LogisticBow.Automate: assumes `model.fit` (`Code/logisticregression_bagofwords.py:102`) and the `cross_val_score(..., cv=10)` calls (lines 103-106) return. `fit` raises ValueError when the labels hold a single class, that is when only one word of the pair has examples. Cross-validation raises when each class has fewer than 10 sentences. Either ends `automate` at that pair; the model builds an input for every pair.
- `gensimthings` (`Code/logisticregression_bagofwords.py:67-73`): gensim's dictionary order cannot be seen; the model stops at the sentences and labels handed to it.
- numpy arrays of floats are modelled as integer sequences; all values are small counts or 0/1 flags.
- `int()` on a malformed count field raises ValueError, and a short frequency row raises IndexError. Both are left out: `Spreads.FreqRow` carries an already parsed integer count.
- Text.Lower: lower-cases ASCII and Latin-1 capitals only (all Icelandic letters), not all of Unicode.
- Text.IsSpace follows Python's `str.isspace` code-point list; other Unicode properties of `split()` are not modelled.
- Grammatical.Automate: the script stops with an UnboundLocalError when a selected sentence lacks its target. The model instead gives an `Option` per pair. `Grammatical.DatasetShape` proves that this case never happens, since every selected sentence holds its target. The model also assumes the `cross_val_score(..., cv=10)` calls (`Code/logisticregression_grammatical.py:195-198`) return. They raise ValueError when both words have fewer than 9 selected sentences, since each class then has fewer than 10 rows counting its seed row. The model builds a dataset for every pair.
- SentenceExamples.ReparseShiftsPairs: proved only for a block whose text contains no `punctuation`; for a block with punctuation tags, that the first piece (header word and the fields up to the first punctuation word) is shifted and the later pieces realign is not proved.
- SentenceExamples.WritePair: the `OH NOES` diagnostic that `write_output` prints for a word starting with `;;` (`Code/gen_sentence_examples.py:48`) is not modelled; the model only drops the pair from the file text, as the script does.
- The grammatical `sent_list` has no label output; the model uses `ExampleParse.SentList` and ignores its labels.
