/**
 * The grammatical features of the logistic regression
 * (Code/logisticregression_grammatical.py): for each selected example
 * sentence, the tags of the tokens one to the left, one to the right and
 * two to the left of the target word are tested against sixteen
 * regular expressions, giving a 0/1 vector of length 16; the vectors of
 * each word of a pair are stacked under a zero seed row and labelled 0 or 1.
 *
 * Each expression has the form `^[...]`, a single character class anchored
 * at the start of the tag, so a tag matches exactly when it is non-empty and
 * its first character is one of the characters between the brackets; the
 * `|` separators are members of the class like any other character.
 */
module Grammatical {
  import opened Seqs
  import opened Text
  import opened ExampleParse

  /** The token `right_left_context` uses where the sentence ends. */
  const Sentinel: Token := ("(N/A)", "none")

  /** The tokens around the target word: left, right and two to the left. */
  datatype Context = Context(left: Token, right: Token, leftTwo: Token)

  // ---------------------------------------------------------------------
  // right_left_context

  /** The last index whose word is `target`, if any. */
  function LastIndex(sent: Sentence, target: String): (r: Option<nat>)
    ensures r.Some? ==> r.value < |sent| && sent[r.value].0 == target &&
                        forall j :: r.value < j < |sent| ==> sent[j].0 != target
    ensures r.None? ==> forall j :: 0 <= j < |sent| ==> sent[j].0 != target
  {
    if sent == [] then None
    else if sent[|sent| - 1].0 == target then Some(|sent| - 1)
    else LastIndex(sent[..|sent| - 1], target)
  }

  /** Python's `sent[j]`, where a negative `j` counts from the end. */
  function PyIndex(sent: Sentence, j: int): Token
    requires -|sent| <= j < |sent|
  {
    if j < 0 then sent[|sent| + j] else sent[j]
  }

  /** The context of the token at index `k`. */
  function ContextAt(sent: Sentence, k: nat): Context
    requires k < |sent|
  {
    Context(PyIndex(sent, k - 1),
            if k + 1 < |sent| then sent[k + 1] else Sentinel,
            if 0 <= k - 2 then sent[k - 2] else Sentinel)
  }

  /** What `right_left_context` returns: the context of the last
      occurrence of the target word, or nothing (the unbound-variable error)
      when the word does not occur. */
  function ContextOf(sent: Sentence, target: String): Option<Context> {
    match LastIndex(sent, target)
    case None => None
    case Some(k) => Some(ContextAt(sent, k))
  }

  /** `right_left_context`: every occurrence of the target word overwrites
      the three context tokens, so the last one wins. */
  method RightLeftContext(sent: Sentence, target: String) returns (ctx: Option<Context>)
    ensures ctx == ContextOf(sent, target)
  {
    var bound := false;
    var leftContextWord: Token := Sentinel;
    var rightContextWord: Token := Sentinel;
    var leftTwoContextWord: Token := Sentinel;
    var index := 0;
    while index < |sent|
      invariant 0 <= index <= |sent|
      invariant bound <==> LastIndex(sent[..index], target).Some?
      invariant bound ==> Context(leftContextWord, rightContextWord, leftTwoContextWord) ==
                             ContextAt(sent, LastIndex(sent[..index], target).value)
    {
      assert sent[..index + 1][..index] == sent[..index];
      var word := sent[index].0;
      if word == target {
        leftContextWord := PyIndex(sent, index - 1);
        if index + 1 < |sent| {
          rightContextWord := sent[index + 1];
        } else {
          rightContextWord := Sentinel;
        }
        if 0 <= index - 2 {
          leftTwoContextWord := sent[index - 2];
        } else {
          leftTwoContextWord := Sentinel;
        }
        bound := true;
      }
      index := index + 1;
    }
    assert sent[..index] == sent;
    if bound {
      ctx := Some(Context(leftContextWord, rightContextWord, leftTwoContextWord));
    } else {
      ctx := None;
    }
  }

  /** A context exists exactly when the target word occurs; it is taken at
      the last occurrence; the right token is the sentinel exactly when that
      occurrence ends the sentence and the left-two token exactly when it is
      at index 0 or 1 (for sentences that do not themselves hold the
      sentinel token); at index 0 the left token wraps round to the last. */
  lemma ContextMeaning(sent: Sentence, target: String)
    ensures ContextOf(sent, target).Some? <==> target in Firsts(sent)
    ensures ContextOf(sent, target).Some? ==>
              var k := LastIndex(sent, target).value;
              var c := ContextOf(sent, target).value;
              && sent[k].0 == target
              && (forall j :: k < j < |sent| ==> sent[j].0 != target)
              && (k == 0 ==> c.left == sent[|sent| - 1])
              && (k > 0 ==> c.left == sent[k - 1])
              && (Sentinel !in sent ==> (c.right == Sentinel <==> k == |sent| - 1))
              && (Sentinel !in sent ==> (c.leftTwo == Sentinel <==> k < 2))
  {
    ContextExists(sent, target);
    if ContextOf(sent, target).Some? {
      var k := LastIndex(sent, target).value;
      if Sentinel !in sent && k + 1 < |sent| {
        assert sent[k + 1] in sent;
      }
      if Sentinel !in sent && k >= 2 {
        assert sent[k - 2] in sent;
      }
    }
  }

  /** A context exists exactly when the word occurs. */
  lemma ContextExists(sent: Sentence, target: String)
    ensures ContextOf(sent, target).Some? <==> target in Firsts(sent)
  {
    var f := Firsts(sent);
    if target in f {
      var j :| 0 <= j < |f| && f[j] == target;
      assert sent[j].0 == target;
    }
    if ContextOf(sent, target).Some? {
      assert f[LastIndex(sent, target).value] == target;
    }
  }

  // ---------------------------------------------------------------------
  // feature_extraction

  /** The bracket contents of the sixteen expressions. */
  const NominalClass: String := "n|l|f|g|t"
  const FiniteClass: String := "sb|sf|sv"
  const NominativeClass: String := "nn|ln|fn|gn|tn"
  const ObliqueClass: String := "no|lo|fo|go|to|nþ|lþ|fþ|gþ|tþ|ne|le|fe|ge|te"
  const ParticleClass: String := "a|c"
  const FeminineClass: String := "fpv|nv"
  const MasculineClass: String := "fpk|nk"
  const InfinitiveParticleClass: String := "cn"
  const InfinitiveVerbClass: String := "sn"

  /** The class tested by each slot, in slot order. */
  function SlotClass(i: nat): String {
    if i < 2 then NominalClass
    else if i < 4 then FiniteClass
    else if i < 6 then NominativeClass
    else if i < 8 then ObliqueClass
    else if i < 10 then ParticleClass
    else if i == 10 then FeminineClass
    else if i == 11 then MasculineClass
    else if i < 14 then InfinitiveParticleClass
    else InfinitiveVerbClass
  }

  /** `re.search(r'^[cls]', tag)` succeeds. */
  predicate ClassMatch(cls: String, tag: String) {
    |tag| > 0 && tag[0] in cls
  }

  /** The tag a slot looks at: slots 10 and 11 the left-two token's,
      otherwise even slots the left token's and odd slots the right one's. */
  function SlotTag(c: Context, i: nat): String {
    if i == 10 || i == 11 then c.leftTwo.1
    else if i == 0 || i == 2 || i == 4 || i == 6 || i == 8 || i == 12 || i == 14 then c.left.1
    else c.right.1
  }

  /** The feature vector of a context. */
  function Features(c: Context): (v: seq<int>)
    ensures |v| == 16
    ensures forall i :: 0 <= i < 16 ==> v[i] == 0 || v[i] == 1
  {
    seq(16, i requires 0 <= i < 16 => Flag(ClassMatch(SlotClass(i), SlotTag(c, i))))
  }

  /** `feature_extraction`: the context of the target word, the sixteen
      expression results for its tags, and the vector they are written to;
      nothing when the context lookup fails. */
  method FeatureExtraction(sent: Sentence, target: String) returns (r: Option<seq<int>>)
    ensures r == match ContextOf(sent, target)
                 case None => None
                 case Some(c) => Some(Features(c))
  {
    var ctx := RightLeftContext(sent, target);
    if ctx.None? {
      return None;
    }
    var matches := Matches(ctx.value);
    var targetVector := WriteSlots(matches);
    FeaturesInOrder(ctx.value);
    r := Some(targetVector);
  }

  /** The slot writes of `feature_extraction`: a zero vector of sixteen
      entries, entry k set to 1 or 0 by the k-th expression's result. */
  method WriteSlots(matches: seq<bool>) returns (v: seq<int>)
    requires |matches| == 16
    ensures v == FlagsOf(matches)
  {
    var targetVector := new int[16](_ => 0);
    for k := 0 to 16
      invariant forall j :: 0 <= j < k ==> targetVector[j] == Flag(matches[j])
    {
      targetVector[k] := Flag(matches[k]);
    }
    v := targetVector[..];
  }

  /** The 0/1 entries for a sequence of match results. */
  function FlagsOf(matches: seq<bool>): (v: seq<int>)
    ensures |v| == |matches|
    ensures forall k :: 0 <= k < |matches| ==> v[k] == Flag(matches[k])
  {
    seq(|matches|, k requires 0 <= k < |matches| => Flag(matches[k]))
  }

  /** The sixteen expression results for a context, in the order
      `feature_extraction` computes and writes them. */
  function Matches(c: Context): (m: seq<bool>)
    ensures |m| == 16
  {
    seq(16, k requires 0 <= k < 16 => SourceMatch(c, k))
  }

  /** The k-th of the sixteen expressions of `feature_extraction`, in the
      order they are written. */
  function SourceMatch(c: Context, k: nat): bool {
    if k == 0 then ClassMatch(NominalClass, c.left.1)
    else if k == 1 then ClassMatch(NominalClass, c.right.1)
    else if k == 2 then ClassMatch(FiniteClass, c.left.1)
    else if k == 3 then ClassMatch(FiniteClass, c.right.1)
    else if k == 4 then ClassMatch(NominativeClass, c.left.1)
    else if k == 5 then ClassMatch(NominativeClass, c.right.1)
    else if k == 6 then ClassMatch(ObliqueClass, c.left.1)
    else if k == 7 then ClassMatch(ObliqueClass, c.right.1)
    else if k == 8 then ClassMatch(ParticleClass, c.left.1)
    else if k == 9 then ClassMatch(ParticleClass, c.right.1)
    else if k == 10 then ClassMatch(FeminineClass, c.leftTwo.1)
    else if k == 11 then ClassMatch(MasculineClass, c.leftTwo.1)
    else if k == 12 then ClassMatch(InfinitiveParticleClass, c.left.1)
    else if k == 13 then ClassMatch(InfinitiveParticleClass, c.right.1)
    else if k == 14 then ClassMatch(InfinitiveVerbClass, c.left.1)
    else ClassMatch(InfinitiveVerbClass, c.right.1)
  }

  /** The feature vector is the expressions' results in slot order. */
  lemma FeaturesInOrder(c: Context)
    ensures Features(c) == FlagsOf(Matches(c))
  {
  }

  /** A slot's value for a match result. */
  function Flag(b: bool): int {
    if b then 1 else 0
  }

  /** The characters each slot accepts as a tag's first character, written
      out as sets. */
  function SlotSet(i: nat): set<char>
    requires i < 16
  {
    if i < 2 then {'n', 'l', 'f', 'g', 't', '|'}
    else if i < 4 then {'s', 'b', 'f', 'v', '|'}
    else if i < 6 then {'n', 'l', 'f', 'g', 't', '|'}
    else if i < 8 then {'n', 'l', 'f', 'g', 't', 'o', 'þ', 'e', '|'}
    else if i < 10 then {'a', 'c', '|'}
    else if i == 10 then {'f', 'p', 'v', 'n', '|'}
    else if i == 11 then {'f', 'p', 'k', 'n', '|'}
    else if i < 14 then {'c', 'n'}
    else {'s', 'n'}
  }

  /** Each slot is 1 exactly when its tag is non-empty and starts with one of
      the characters of its class: the nominative class is the nominal one,
      the oblique class adds o, þ and e, and `|` belongs to every class with
      an alternation in it. */
  lemma SlotSets(c: Context, i: nat)
    requires i < 16
    ensures Features(c)[i] == 1 <==> |SlotTag(c, i)| > 0 && SlotTag(c, i)[0] in SlotSet(i)
    ensures Features(c)[i] == 0 <==> !(|SlotTag(c, i)| > 0 && SlotTag(c, i)[0] in SlotSet(i))
  {
    SlotClassChars(i);
  }

  lemma SlotClassChars(i: nat)
    requires i < 16
    ensures forall x: char :: x in SlotClass(i) <==> x in SlotSet(i)
  {
  }

  /** Slots 10 and 11 read only the left-two tag; every other slot reads
      only the left or the right tag. */
  lemma SlotDependence(c1: Context, c2: Context, i: nat)
    requires i < 16
    ensures (i == 10 || i == 11) && c1.leftTwo.1 == c2.leftTwo.1 ==> Features(c1)[i] == Features(c2)[i]
    ensures i != 10 && i != 11 && c1.left.1 == c2.left.1 && c1.right.1 == c2.right.1 ==>
              Features(c1)[i] == Features(c2)[i]
  {
  }

  /** The sentinel's tag "none" starts with `n`: as the right token it
      sets the nominal, nominative and oblique slots 1, 5 and 7 ... */
  lemma SentinelCaseSlots(c: Context)
    requires c.right == Sentinel
    ensures Features(c)[1] == 1 && Features(c)[5] == 1 && Features(c)[7] == 1
  {
  }

  /** ... clears the finite-verb and particle slots 3 and 9 ... */
  lemma SentinelVerbParticleSlots(c: Context)
    requires c.right == Sentinel
    ensures Features(c)[3] == 0 && Features(c)[9] == 0
  {
  }

  /** ... and sets the infinitive slots 13 and 15. */
  lemma SentinelInfinitiveSlots(c: Context)
    requires c.right == Sentinel
    ensures Features(c)[13] == 1 && Features(c)[15] == 1
  {
  }

  /** As the left-two token the sentinel sets slots 10 and 11. */
  lemma SentinelLeftTwoSlots(c: Context)
    requires c.leftTwo == Sentinel
    ensures Features(c)[10] == 1 && Features(c)[11] == 1
  {
  }

  // ---------------------------------------------------------------------
  // The matrices of automate

  /** The zero seed row of `np.zeros([1, 16])`. */
  function ZeroRow(): (z: seq<int>)
    ensures |z| == 16 && forall i :: 0 <= i < 16 ==> z[i] == 0
  {
    Repeat(0, 16)
  }

  /** A word's feature matrix: the seed row, then one row per sentence;
      nothing if a sentence lacks the word. */
  function MatrixFor(sents: seq<Sentence>, target: String): Option<seq<seq<int>>> {
    if sents == [] then Some([ZeroRow()])
    else
      match (MatrixFor(sents[..|sents| - 1], target), ContextOf(sents[|sents| - 1], target))
      case (Some(m), Some(c)) => Some(m + [Features(c)])
      case _ => None
  }

  /** The training data for one word pair: both matrices stacked, with N1
      zeros and N2 ones as labels (N1, N2 the matrices' row counts). */
  datatype Dataset = Dataset(data: seq<seq<int>>, labels: seq<int>)

  function DatasetFor(data: String, w1: String, w2: String): Option<Dataset> {
    var sentences := Tupled(Preprocessed(data));
    match (MatrixFor(Selected(sentences, w1), w1), MatrixFor(Selected(sentences, w2), w2))
    case (Some(m1), Some(m2)) => Some(Dataset(m1 + m2, Repeat(0, |m1|) + Repeat(1, |m2|)))
    case _ => None
  }

  /** The two matrix-building loops of `automate`, one word at a time. */
  method ClassMatrix(sents: seq<Sentence>, target: String) returns (m: Option<seq<seq<int>>>)
    ensures m == MatrixFor(sents, target)
  {
    var dataMatrix := [ZeroRow()];
    var i := 0;
    while i < |sents|
      invariant 0 <= i <= |sents|
      invariant MatrixFor(sents[..i], target) == Some(dataMatrix)
    {
      assert sents[..i + 1][..i] == sents[..i];
      var targetVector := FeatureExtraction(sents[i], target);
      if targetVector.None? {
        MatrixNone(sents, target, i + 1);
        return None;
      }
      dataMatrix := dataMatrix + [targetVector.value];
      i := i + 1;
    }
    assert sents[..i] == sents;
    m := Some(dataMatrix);
  }

  /** Once a prefix has no matrix, no longer prefix has one. */
  lemma {:induction false} MatrixNone(sents: seq<Sentence>, target: String, i: nat)
    requires i <= |sents| && MatrixFor(sents[..i], target).None?
    ensures MatrixFor(sents, target).None?
    decreases |sents| - i
  {
    if i < |sents| {
      assert sents[..i + 1][..i] == sents[..i];
      MatrixNone(sents, target, i + 1);
    } else {
      assert sents[..i] == sents;
    }
  }

  /** The loop body of `automate` for one word pair, up to scaling. */
  method BuildDataset(data: String, w1: String, w2: String) returns (ds: Option<Dataset>)
    ensures ds == DatasetFor(data, w1, w2)
  {
    var sent := Preprocess(data);
    var sentences := TupleSent(sent);
    var sentList1, _ := SentList(sentences, w1, 0);
    var sentList2, _ := SentList(sentences, w2, 1);
    var dataMatrix1 := ClassMatrix(sentList1, w1);
    var dataMatrix2 := ClassMatrix(sentList2, w2);
    if dataMatrix1.None? || dataMatrix2.None? {
      return None;
    }
    var n1, n2 := |dataMatrix1.value|, |dataMatrix2.value|;
    var target := Repeat(0, n1) + Repeat(1, n2);
    ds := Some(Dataset(dataMatrix1.value + dataMatrix2.value, target));
  }

  /** The datasets for a list of word pairs, in order. */
  function PairDatasets(pairs: seq<(String, String)>, data: String): seq<Option<Dataset>> {
    Map((p: (String, String)) => DatasetFor(data, p.0, p.1), pairs)
  }

  /** `automate`: one dataset per consecutive pair of the stripped word
      list; an odd word list ends in an index error after the complete
      pairs. */
  method Automate(wordLines: seq<String>, data: String) returns (datasets: seq<Option<Dataset>>, failedAt: Option<nat>)
    ensures datasets == PairDatasets(PairAdjacent(RStripAll(wordLines)), data)
    ensures failedAt == if |wordLines| % 2 == 1 then Some(|wordLines|) else None
  {
    var words := RStripLines(wordLines);
    var pairs;
    pairs, failedAt := WordPairs(words);
    datasets := BuildAll(pairs, data);
  }

  /** The body of `automate`'s loop, pair after pair. */
  method BuildAll(pairs: seq<(String, String)>, data: String) returns (datasets: seq<Option<Dataset>>)
    ensures datasets == PairDatasets(pairs, data)
  {
    ghost var all := PairDatasets(pairs, data);
    datasets := [];
    var i := 0;
    while i < |pairs|
      invariant 0 <= i <= |pairs|
      invariant datasets == all[..i]
    {
      var ds := BuildDataset(data, pairs[i].0, pairs[i].1);
      TakeSnoc(all, i);
      datasets := datasets + [ds];
      i := i + 1;
    }
    assert all[..i] == all;
  }

  // ---------------------------------------------------------------------
  // Lemmas about the matrices

  /** For sentences that all hold the target word the matrix exists: the
      zero seed row, then each sentence's feature vector. */
  lemma {:induction false} MatrixOfSelected(sents: seq<Sentence>, target: String)
    requires forall s :: s in sents ==> target in Firsts(s)
    ensures MatrixFor(sents, target).Some?
    ensures var m := MatrixFor(sents, target).value;
            && |m| == |sents| + 1 && m[0] == ZeroRow()
            && IsFeatureMatrix(m)
            && forall r :: 0 <= r < |sents| ==>
                 ContextOf(sents[r], target).Some? && m[r + 1] == Features(ContextOf(sents[r], target).value)
  {
    if sents != [] {
      var init := sents[..|sents| - 1];
      var last := sents[|sents| - 1];
      assert forall s :: s in init ==> s in sents;
      MatrixOfSelected(init, target);
      ContextExists(last, target);
      var m := MatrixFor(init, target).value;
      var row := Features(ContextOf(last, target).value);
      MatrixStep(sents, target);
      FeatureMatrixSnoc(m, row);
      forall r | 0 <= r < |sents|
        ensures ContextOf(sents[r], target).Some?
        ensures (m + [row])[r + 1] == Features(ContextOf(sents[r], target).value)
      {
        if r < |init| {
          assert sents[r] == init[r];
        }
      }
    }
  }

  /** One more sentence whose context exists adds its feature row. */
  lemma MatrixStep(sents: seq<Sentence>, target: String)
    requires sents != []
    requires MatrixFor(sents[..|sents| - 1], target).Some?
    requires ContextOf(sents[|sents| - 1], target).Some?
    ensures MatrixFor(sents, target) ==
            Some(MatrixFor(sents[..|sents| - 1], target).value + [Features(ContextOf(sents[|sents| - 1], target).value)])
  {
  }

  lemma FeatureMatrixSnoc(m: seq<seq<int>>, row: seq<int>)
    requires IsFeatureMatrix(m)
    requires |row| == 16 && forall i :: 0 <= i < 16 ==> row[i] == 0 || row[i] == 1
    ensures IsFeatureMatrix(m + [row])
  {
    forall r | 0 <= r < |m| + 1
      ensures |(m + [row])[r]| == 16
    {
      if r < |m| {
        assert (m + [row])[r] == m[r];
      }
    }
  }

  /** Every row has sixteen entries, each 0 or 1. */
  ghost predicate IsFeatureMatrix(m: seq<seq<int>>) {
    forall r :: 0 <= r < |m| ==> |m[r]| == 16 && forall i :: 0 <= i < 16 ==> m[r][i] == 0 || m[r][i] == 1
  }

  /** `n1 + n2` rows of sixteen 0/1 entries, zero seed rows at 0 and at
      `n1`, and as many labels as rows: `n1` zeros, then ones. */
  ghost predicate Shaped(ds: Dataset, n1: nat, n2: nat) {
    && n1 >= 1 && n2 >= 1
    && |ds.data| == n1 + n2 && |ds.labels| == n1 + n2
    && ds.data[0] == ZeroRow() && ds.data[n1] == ZeroRow()
    && IsFeatureMatrix(ds.data)
    && forall r :: 0 <= r < n1 + n2 ==> ds.labels[r] == if r < n1 then 0 else 1
  }

  /** Stacking two matrices that start with a seed row, labelled by their
      row counts. */
  lemma StackShape(m1: seq<seq<int>>, m2: seq<seq<int>>)
    requires |m1| >= 1 && |m2| >= 1 && m1[0] == ZeroRow() && m2[0] == ZeroRow()
    requires IsFeatureMatrix(m1) && IsFeatureMatrix(m2)
    ensures Shaped(Dataset(m1 + m2, Repeat(0, |m1|) + Repeat(1, |m2|)), |m1|, |m2|)
  {
    var m := m1 + m2;
    forall r | 0 <= r < |m|
      ensures |m[r]| == 16 && forall i :: 0 <= i < 16 ==> m[r][i] == 0 || m[r][i] == 1
    {
      if r >= |m1| {
        assert m[r] == m2[r - |m1|];
      }
    }
  }

  /** Every pair yields a dataset: one row per selected sentence plus the
      two zero seed rows, 16 entries of 0 or 1 in every row, and as many
      labels as rows, N1 zeros (the first seed row and the first word's
      sentences) followed by ones. */
  lemma DatasetShape(data: String, w1: String, w2: String)
    ensures DatasetFor(data, w1, w2).Some?
    ensures var sentences := Tupled(Preprocessed(data));
            Shaped(DatasetFor(data, w1, w2).value, |Selected(sentences, w1)| + 1, |Selected(sentences, w2)| + 1)
  {
    var sentences := Tupled(Preprocessed(data));
    SelectedMatrix(sentences, w1);
    SelectedMatrix(sentences, w2);
    var m1 := MatrixFor(Selected(sentences, w1), w1).value;
    var m2 := MatrixFor(Selected(sentences, w2), w2).value;
    StackShape(m1, m2);
    assert DatasetFor(data, w1, w2) == Some(Dataset(m1 + m2, Repeat(0, |m1|) + Repeat(1, |m2|)));
  }

  /** The matrix of the sentences selected for a word always exists. */
  lemma SelectedMatrix(sentences: seq<Sentence>, w: String)
    ensures var m := MatrixFor(Selected(sentences, w), w);
            && m.Some? && |m.value| == |Selected(sentences, w)| + 1
            && m.value[0] == ZeroRow() && IsFeatureMatrix(m.value)
  {
    forall s | s in Selected(sentences, w) ensures w in Firsts(s) {
      SelectedContainTarget(sentences, w, s);
    }
    MatrixOfSelected(Selected(sentences, w), w);
  }

  /** The i-th dataset is built for lines 2i and 2i+1 of the word file,
      right-stripped. */
  lemma AutomatePairs(wordLines: seq<String>, data: String, i: nat)
    requires i < |wordLines| / 2
    ensures |PairDatasets(PairAdjacent(RStripAll(wordLines)), data)| == |wordLines| / 2
    ensures PairDatasets(PairAdjacent(RStripAll(wordLines)), data)[i] ==
            DatasetFor(data, RStrip(wordLines[2 * i]), RStrip(wordLines[2 * i + 1]))
  {
  }
}
