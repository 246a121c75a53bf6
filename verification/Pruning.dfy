/** Pruning keeps the meaning of every line. */
module Pruning {
  import opened Subwords
  import opened Vocabulary

  /** The new number of an old row, or -1 when it was dropped. */
  function NewRow(idx: seq<int>, row: int): (p: int)
    ensures -1 <= p < |idx|
    ensures p >= 0 ==> idx[p] == row
    ensures p < 0 ==> row !in idx
  {
    if |idx| == 0 then -1 else if idx[|idx| - 1] == row then |idx| - 1 else NewRow(idx[..|idx| - 1], row)
  }

  ghost predicate AllDistinct(idx: seq<int>) {
    forall i, j :: 0 <= i < j < |idx| ==> idx[i] != idx[j]
  }

  lemma NewRowIs(idx: seq<int>, p: nat)
    requires AllDistinct(idx) && p < |idx|
    ensures NewRow(idx, idx[p]) == p
  {
  }

  function RenameOne(idx: seq<int>, row: int): seq<int> {
    if NewRow(idx, row) >= 0 then [NewRow(idx, row)] else []
  }

  /** Dropped rows left out, kept rows renumbered so that `idx[new] == old`. */
  function Rename(idx: seq<int>, rows: seq<int>): seq<int> {
    if |rows| == 0 then [] else Rename(idx, rows[..|rows| - 1]) + RenameOne(idx, rows[|rows| - 1])
  }

  lemma {:induction false} RenameJoins(idx: seq<int>, a: seq<int>, b: seq<int>)
    ensures Rename(idx, a + b) == Rename(idx, a) + Rename(idx, b)
  {
    hide RenameOne;
    if |b| == 0 {
      assert a + b == a;
    } else {
      RenameJoins(idx, a, b[..|b| - 1]);
      assert (a + b)[..|a + b| - 1] == a + b[..|b| - 1];
    }
  }

  /** What the entry's fields other than its subwords are. */
  predicate SameEntry(a: Entry, b: Entry) {
    a.word == b.word && a.count == b.count && a.isLabel == b.isLabel
  }

  /** `words` are the kept words in increasing order and `grams` the kept n-gram rows in the order given; `v'` is what
      is left of the dictionary. */
  ghost predicate IsPruned(v: View, words: seq<int>, grams: seq<int>, v': View) {
    RowsKept(v, words, grams) && EntriesKept(v, words, v') && GramsRenumbered(v, grams, v') && SubwordsOk(v')
  }

  ghost predicate RowsKept(v: View, words: seq<int>, grams: seq<int>) {
    && (forall i, j :: 0 <= i < j < |words| ==> words[i] < words[j])
    && AllDistinct(grams) && (forall i :: 0 <= i < |grams| ==> v.nwords <= grams[i])
  }

  ghost predicate EntriesKept(v: View, words: seq<int>, v': View) {
    && (forall i :: 0 <= i < |words| ==> 0 <= words[i] < v.nwords)
    && v'.args == v.args && v'.nwords == |words| && v.nwords <= |v.words| &&
      |v'.words| == |words| + (|v.words| - v.nwords)
    && (forall j :: 0 <= j < |words| ==> SameEntry(v'.words[j], v.words[words[j]]))
    && (forall k :: |words| <= k < |v'.words| ==> SameEntry(v'.words[k], v.words[k - |words| + v.nwords]))
  }

  ghost predicate GramsRenumbered(v: View, grams: seq<int>, v': View) {
    && v'.pruneSize == |grams|
    && (forall id :: id in v'.pruned <==> v.nwords + id in grams)
    && (forall id :: id in v'.pruned ==> v'.pruned[id] == NewRow(grams, v.nwords + id))
  }

  /** A dictionary that has not been pruned before. */
  ghost predicate Unpruned(v: View) {
    && Distinct(v.words) && WordsFirst(v.words, v.nwords) && WellTyped(v.words, v.args.prefix) && SubwordsOk(v)
    && v.pruneSize < 0 && ArgsOk(v.args)
  }

  /** Words get the same n-grams in the vocabulary and out of it: the limit is not negative, or it allows no n-gram
      anyway, or every token is a label. */
  predicate SameNgrams(a: Args)
    requires Sizes(a)
  {
    a.maxn >= 0 || AsSize(a.maxn) < AsSize(a.minn) || a.prefix == []
  }

  ghost predicate Prunable(v: View) {
    Unpruned(v) && SameNgrams(v.args)
  }

  lemma PrunableIsUnpruned(v: View)
    requires Prunable(v)
    ensures Unpruned(v)
  {
  }

  lemma KeptDistinct(v: View, words: seq<int>, grams: seq<int>, v': View)
    requires IsPruned(v, words, grams, v')
    ensures AllDistinct(words + grams)
  {
    hide SubwordsOk, GramsRenumbered;
  }

  // ---- one row ----

  lemma GramRow(words: seq<int>, grams: seq<int>, row: int)
    requires AllDistinct(words + grams) && AllDistinct(grams) && row !in words
    ensures NewRow(words + grams, row) == if NewRow(grams, row) >= 0 then |words| + NewRow(grams, row) else -1
  {
    var p := NewRow(grams, row);
    if p >= 0 {
      assert (words + grams)[|words| + p] == row;
      NewRowIs(words + grams, |words| + p);
    }
  }

  lemma WordRow(words: seq<int>, grams: seq<int>, row: int)
    requires AllDistinct(words + grams) && AllDistinct(words) && row !in grams
    ensures NewRow(words + grams, row) == NewRow(words, row)
  {
    var p := NewRow(words, row);
    if p >= 0 {
      assert (words + grams)[p] == row;
      NewRowIs(words + grams, p);
    }
  }

  lemma PushRenamed(v: View, words: seq<int>, grams: seq<int>, v': View, id: int)
    requires Prunable(v) && IsPruned(v, words, grams, v') && id >= 0
    ensures PushHash(v', id) == RenameOne(words + grams, v.nwords + id) && PushHash(v, id) == [v.nwords + id]
  {
    hide Prunable, IsPruned, NewRow;
    PrunedRow(v, words, grams, v', id);
    GramRow(words, grams, v.nwords + id);
  }

  /** What pruning says about one n-gram row. */
  lemma PrunedRow(v: View, words: seq<int>, grams: seq<int>, v': View, id: int)
    requires Prunable(v) && IsPruned(v, words, grams, v') && id >= 0
    ensures v.pruneSize < 0 && v'.pruneSize == |grams| && v'.nwords == |words|
    ensures id in v'.pruned <==> NewRow(grams, v.nwords + id) >= 0
    ensures id in v'.pruned ==> v'.pruned[id] == NewRow(grams, v.nwords + id) && |grams| > 0
    ensures v.nwords + id !in words && AllDistinct(words + grams) && AllDistinct(grams)
  {
    hide *;
    PrunableIsUnpruned(v);
    NeverPruned(v);
    RowIsNoWord(v, words, grams, v', id);
    PrunedIds(v, words, grams, v', id);
    KeptDistinct(v, words, grams, v');
  }

  lemma NeverPruned(v: View)
    requires Unpruned(v)
    ensures v.pruneSize < 0
  {
  }

  lemma RowIsNoWord(v: View, words: seq<int>, grams: seq<int>, v': View, id: int)
    requires IsPruned(v, words, grams, v') && id >= 0
    ensures v'.pruneSize == |grams| && v'.nwords == |words| && AllDistinct(grams) && v.nwords + id !in words
  {
    hide SubwordsOk, AllDistinct;
  }

  lemma PrunedIds(v: View, words: seq<int>, grams: seq<int>, v': View, id: int)
    requires IsPruned(v, words, grams, v')
    ensures id in v'.pruned <==> NewRow(grams, v.nwords + id) >= 0
    ensures id in v'.pruned ==> v'.pruned[id] == NewRow(grams, v.nwords + id) && |grams| > 0
  {
    hide SubwordsOk, NewRow, RowsKept, EntriesKept;
  }

  lemma {:induction false} PushAllRenamed(v: View, words: seq<int>, grams: seq<int>, v': View, ids: seq<int>)
    requires Prunable(v) && IsPruned(v, words, grams, v') && forall i :: 0 <= i < |ids| ==> ids[i] >= 0
    ensures PushAll(v', ids) == Rename(words + grams, PushAll(v, ids))
  {
    hide Prunable, IsPruned, PushHash, RenameOne;
    if |ids| > 0 {
      var id := ids[|ids| - 1];
      PushAllRenamed(v, words, grams, v', ids[..|ids| - 1]);
      PushRenamed(v, words, grams, v', id);
      RenameJoins(words + grams, PushAll(v, ids[..|ids| - 1]), [v.nwords + id]);
      RenameSingle(words + grams, v.nwords + id);
    }
  }

  lemma RenameSingle(idx: seq<int>, row: int)
    ensures Rename(idx, [row]) == RenameOne(idx, row)
  {
    assert Rename(idx, [row][..0]) == [];
  }

  lemma {:induction false} HashIdsNonNegative(a: Args, grams: seq<Bytes>)
    requires a.bucket >= 0
    ensures forall i :: 0 <= i < |HashIds(a, grams)| ==> HashIds(a, grams)[i] >= 0
  {
    if |grams| > 0 { HashIdsNonNegative(a, grams[..|grams| - 1]); }
  }

  lemma {:induction false} NgramsOfWordsNonNegative(a: Args, hashes: seq<int>, h: nat, j: nat, limit: int)
    ensures forall i :: 0 <= i < |NgramsOfWords(a, hashes, h, j, limit)| ==>
      NgramsOfWords(a, hashes, h, j, limit)[i] >= 0
    decreases |hashes| - j
  {
    hide Extend;
    if j < |hashes| && j < limit { NgramsOfWordsNonNegative(a, hashes, Extend(h, hashes[j]), j + 1, limit); }
  }

  lemma {:induction false} WordNgramIdsNonNegative(a: Args, hashes: seq<int>, upTo: nat)
    requires upTo <= |hashes|
    ensures forall i :: 0 <= i < |WordNgramIds(a, hashes, upTo)| ==> WordNgramIds(a, hashes, upTo)[i] >= 0
  {
    hide NgramsOfWords;
    if upTo > 0 {
      WordNgramIdsNonNegative(a, hashes, upTo - 1);
      NgramsOfWordsNonNegative(a, hashes, hashes[upTo - 1] % TWO_64, upTo, upTo - 1 + a.wordNgrams);
    }
  }

  // ---- one token ----

  /** Where an entry of before is afterwards, and the other way round. */
  function NewPosition(v: View, words: seq<int>, p: int): int {
    if p < 0 then -1 else if p < v.nwords then NewRow(words, p) else p - v.nwords + |words|
  }

  function OldPosition(v: View, words: seq<int>, p: int): int {
    if p < 0 then -1 else if p < |words| then words[p] else p - |words| + v.nwords
  }

  lemma FoundAfter(v: View, words: seq<int>, grams: seq<int>, v': View, token: Bytes)
    requires Prunable(v) && IsPruned(v, words, grams, v') && Position(v'.words, token) >= 0
    ensures Position(v.words, token) == OldPosition(v, words, Position(v'.words, token))
  {
    hide RowsKept, GramsRenumbered, SubwordsOk, WellTyped, WordsFirst;
    var p' := Position(v'.words, token);
    var p := OldPosition(v, words, p');
    assert SameEntry(v'.words[p'], v.words[p]);
    PositionIs(v.words, p);
  }

  lemma FoundBefore(v: View, words: seq<int>, grams: seq<int>, v': View, token: Bytes)
    requires Prunable(v) && IsPruned(v, words, grams, v') && Position(v.words, token) >= 0 && Distinct(v'.words)
    ensures NewPosition(v, words, Position(v.words, token)) >= 0 ==>
      Position(v'.words, token) == NewPosition(v, words, Position(v.words, token))
  {
    hide RowsKept, GramsRenumbered, SubwordsOk, WellTyped, WordsFirst;
    var p := Position(v.words, token);
    var p' := NewPosition(v, words, p);
    if p' >= 0 {
      assert SameEntry(v'.words[p'], v.words[p]);
      PositionIs(v'.words, p');
    }
  }

  /** Where a token is found afterwards. */
  lemma PositionAfter(v: View, words: seq<int>, grams: seq<int>, v': View, token: Bytes)
    requires Prunable(v) && IsPruned(v, words, grams, v')
    ensures Position(v'.words, token) == NewPosition(v, words, Position(v.words, token))
  {
    hide Prunable, IsPruned, Distinct;
    KeptAreDistinct(v, words, grams, v');
    WordsAreWords(v, words, grams, v');
    if Position(v'.words, token) >= 0 { FoundAfter(v, words, grams, v', token); }
    if Position(v.words, token) >= 0 { FoundBefore(v, words, grams, v', token); }
  }

  lemma WordsAreWords(v: View, words: seq<int>, grams: seq<int>, v': View)
    requires Prunable(v) && IsPruned(v, words, grams, v')
    ensures forall i :: 0 <= i < |words| ==> 0 <= words[i] < v.nwords && NewRow(words, words[i]) == i
    ensures v.nwords <= |v.words|
  {
    hide GramsRenumbered, SubwordsOk, WellTyped, Distinct;
    forall i | 0 <= i < |words| ensures NewRow(words, words[i]) == i { NewRowIs(words, i); }
  }

  lemma KeptAreDistinct(v: View, words: seq<int>, grams: seq<int>, v': View)
    requires Prunable(v) && IsPruned(v, words, grams, v')
    ensures Distinct(v'.words)
  {
    hide GramsRenumbered, SubwordsOk, WellTyped, WordsFirst;
    forall i, j | 0 <= i < j < |v'.words| ensures v'.words[i].word != v'.words[j].word {
      var a := if i < |words| then words[i] else i - |words| + v.nwords;
      var b := if j < |words| then words[j] else j - |words| + v.nwords;
      assert SameEntry(v'.words[i], v.words[a]) && SameEntry(v'.words[j], v.words[b]);
    }
  }

  /** A token is a word afterwards if and only if it was one before. */
  lemma StillWord(v: View, words: seq<int>, grams: seq<int>, v': View, token: Bytes)
    requires Prunable(v) && IsPruned(v, words, grams, v')
    ensures IsWord(v', token) == IsWord(v, token)
  {
    hide RowsKept, GramsRenumbered, SubwordsOk, Distinct;
    PositionAfter(v, words, grams, v', token);
    var p := Position(v.words, token);
    if p >= 0 {
      assert v.words[p].isLabel <==> HasPrefix(token, v.args.prefix);
      var p' := Position(v'.words, token);
      if p' >= 0 { assert SameEntry(v'.words[p'], v.words[p]); }
    }
  }

  lemma TokenRenamed(v: View, words: seq<int>, grams: seq<int>, v': View, token: Bytes)
    requires Prunable(v) && IsPruned(v, words, grams, v')
    ensures TokenRows(v', token) == Rename(words + grams, TokenRows(v, token))
  {
    StillWord(v, words, grams, v', token);
    if IsWord(v, token) {
      WordRenamed(v, words, grams, v', token);
    }
  }

  lemma SubwordIdsNonNegative(a: Args, w: Bytes)
    requires ArgsOk(a)
    ensures forall i :: 0 <= i < |SubwordIds(a, w)| ==> SubwordIds(a, w)[i] >= 0
  {
    hide HashIds, Ngrams;
    if w != EOS { HashIdsNonNegative(a, Ngrams(a, BOW + w + EOW, |BOW + w + EOW|)); }
  }

  predicate NgramsPossible(a: Args)
    requires Sizes(a)
  {
    a.maxn != 0 && AsSize(a.minn) <= AsSize(a.maxn)
  }

  /** Without subwords there are no n-grams to drop. */
  lemma NoSubwords(a: Args, w: Bytes)
    requires Sizes(a) && !NgramsPossible(a)
    ensures SubwordIds(a, w) == []
  {
    if w != EOS { NoNgrams(a, BOW + w + EOW, |BOW + w + EOW|); }
  }

  lemma {:induction false} NoNgrams(a: Args, w: Bytes, upTo: nat)
    requires Sizes(a) && !NgramsPossible(a) && upTo <= |w|
    ensures Ngrams(a, w, upTo) == []
  {
    hide NgramsPossible, NgramsFrom;
    if upTo > 0 {
      NoNgrams(a, w, upTo - 1);
      NoNgramsFrom(a, w, upTo - 1, upTo - 1, 1);
    }
  }

  lemma {:induction false} NoNgramsFrom(a: Args, w: Bytes, i: nat, j: nat, n: nat)
    requires Sizes(a) && !NgramsPossible(a) && i <= j <= |w| && n >= 1
    ensures NgramsFrom(a, w, i, j, n) == []
    decreases |w| - j
  {
    if j < |w| && n <= AsSize(a.maxn) { NoNgramsFrom(a, w, i, Boundary(w, j + 1), n + 1); }
  }

  /** The rows of a word: its own, then its subwords'. */
  lemma WordRowsAre(v: View, token: Bytes)
    requires SubwordsOk(v) && (v.args.maxn >= 0 || AsSize(v.args.maxn) < AsSize(v.args.minn))
    ensures var p := Position(v.words, token);
      WordRows(v, token) == (if p >= 0 then [p] else []) + PushAll(v, SubwordIds(v.args, token))
  {
    var p := Position(v.words, token);
    if v.args.maxn <= 0 { NoSubwords(v.args, token); }
    if p >= 0 { assert v.words[p].word == token; }
  }

  lemma SomeTokensAreWords(v: View, token: Bytes)
    requires WellTyped(v.words, v.args.prefix) && IsWord(v, token)
    ensures v.args.prefix != []
  {
  }

  lemma WordRenamed(v: View, words: seq<int>, grams: seq<int>, v': View, token: Bytes)
    requires Prunable(v) && IsPruned(v, words, grams, v') && IsWord(v, token)
    ensures WordRows(v', token) == Rename(words + grams, WordRows(v, token))
  {
    SomeTokensAreWords(v, token);
    hide Distinct, WellTyped, SubwordsOk, PushAll, Rename, SubwordIds, WordRows;
    var p, ids := Position(v.words, token), SubwordIds(v.args, token);
    WordRowsAre(v, token);
    WordRowsAre(v', token);
    PositionAfter(v, words, grams, v', token);
    SubwordIdsNonNegative(v.args, token);
    PushAllRenamed(v, words, grams, v', ids);
    RenameJoins(words + grams, if p >= 0 then [p] else [], PushAll(v, ids));
    OwnRowRenamed(v, words, grams, v', p);
  }

  lemma OwnRowRenamed(v: View, words: seq<int>, grams: seq<int>, v': View, p: int)
    requires Prunable(v) && IsPruned(v, words, grams, v') && -1 <= p < v.nwords
    ensures Rename(words + grams, if p >= 0 then [p] else []) == if p >= 0 &&
      NewRow(words, p) >= 0 then [NewRow(words, p)] else []
  {
    hide GramsRenumbered, Distinct, WellTyped, SubwordsOk, WordsFirst;
    if p >= 0 {
      RenameSingle(words + grams, p);
      KeptDistinct(v, words, grams, v');
      assert p !in grams;
      WordRow(words, grams, p);
    }
  }

  lemma LabelUnchanged(v: View, words: seq<int>, grams: seq<int>, v': View, token: Bytes)
    requires Prunable(v) && IsPruned(v, words, grams, v')
    ensures TokenLabels(v', token) == TokenLabels(v, token)
  {
    hide RowsKept, GramsRenumbered, SubwordsOk, WellTyped, Distinct;
    StillWord(v, words, grams, v', token);
    PositionAfter(v, words, grams, v', token);
    var p := Position(v.words, token);
    if p >= 0 { assert v.words[p].isLabel <==> v.nwords <= p; }
  }

  // ---- lines ----

  lemma {:induction false} RowsRenamed(v: View, words: seq<int>, grams: seq<int>, v': View, tokens: seq<Bytes>)
    requires Prunable(v) && IsPruned(v, words, grams, v')
    ensures RowsOf(v', tokens) == Rename(words + grams, RowsOf(v, tokens))
  {
    hide Prunable, IsPruned, TokenRows;
    PrunedSizes(v, words, grams, v');
    if |tokens| > 0 {
      RowsRenamed(v, words, grams, v', tokens[..|tokens| - 1]);
      TokenRenamed(v, words, grams, v', tokens[|tokens| - 1]);
      RenameJoins(words + grams, RowsOf(v, tokens[..|tokens| - 1]), TokenRows(v, tokens[|tokens| - 1]));
    }
  }

  lemma PrunedSizes(v: View, words: seq<int>, grams: seq<int>, v': View)
    requires Prunable(v) && IsPruned(v, words, grams, v')
    ensures v'.args == v.args && Sizes(v.args)
  {
    hide RowsKept, GramsRenumbered, Distinct, WordsFirst, WellTyped;
  }

  lemma {:induction false} HashesUnchanged(v: View, words: seq<int>, grams: seq<int>, v': View, tokens: seq<Bytes>)
    requires Prunable(v) && IsPruned(v, words, grams, v')
    ensures HashesOf(v', tokens) == HashesOf(v, tokens) && LabelsOf(v', tokens) == LabelsOf(v, tokens)
  {
    hide Prunable, IsPruned, TokenLabels, IsWord;
    if |tokens| > 0 {
      HashesUnchanged(v, words, grams, v', tokens[..|tokens| - 1]);
      StillWord(v, words, grams, v', tokens[|tokens| - 1]);
      LabelUnchanged(v, words, grams, v', tokens[|tokens| - 1]);
    }
  }

  /** Pruning preserves meaning: the rows of any line afterwards are the rows of before, with the dropped ones left out
      and the kept ones renumbered so that `idx[new] == old`; the labels are the same. */
  lemma PruneKeepsLines(v: View, words: seq<int>, grams: seq<int>, v': View, tokens: seq<Bytes>)
    requires Prunable(v) && IsPruned(v, words, grams, v')
    ensures v'.args == v.args && Sizes(v.args) && LineRows(v', tokens) == Rename(words + grams, LineRows(v, tokens))
    ensures LineLabels(v', tokens) == LineLabels(v, tokens)
  {
    hide Prunable, IsPruned, RowsOf, PushAll, Rename, WordNgramIds, HashesOf, LabelsOf;
    PrunedSizes(v, words, grams, v');
    var line := Line(tokens);
    var hashes := HashesOf(v, line);
    HashesUnchanged(v, words, grams, v', line);
    RowsRenamed(v, words, grams, v', line);
    WordNgramIdsNonNegative(v.args, hashes, |hashes|);
    PushAllRenamed(v, words, grams, v', WordNgramIds(v.args, hashes, |hashes|));
    RenameJoins(words + grams, RowsOf(v, line), PushAll(v, WordNgramIds(v.args, hashes, |hashes|)));
  }

  /** The labels of a line are labels. */
  lemma {:induction false} LabelsInRange(v: View, tokens: seq<Bytes>, l: int)
    requires WordsFirst(v.words, v.nwords) && l in LabelsOf(v, tokens)
    ensures 0 <= l && v.nwords + l < |v.words|
  {
    var front, token := tokens[..|tokens| - 1], tokens[|tokens| - 1];
    if l in LabelsOf(v, front) {
      LabelsInRange(v, front, l);
    } else {
      var p := Position(v.words, token);
      assert v.words[p].isLabel <==> v.nwords <= p;
    }
  }

  /** The labels of a line go on naming the same texts. */
  lemma LineLabelsNameTheSame(v: View, words: seq<int>, grams: seq<int>, v': View, tokens: seq<Bytes>, j: nat)
    requires Prunable(v) && IsPruned(v, words, grams, v') && j < |LineLabels(v, tokens)|
    ensures j < |LineLabels(v', tokens)|
    ensures var l, l' := LineLabels(v, tokens)[j], LineLabels(v', tokens)[j];
      && 0 <= l && v.nwords + l < |v.words| && 0 <= l' && v'.nwords + l' < |v'.words| &&
        LabelText(v', l') == LabelText(v, l)
  {
    PruneKeepsLines(v, words, grams, v', tokens);
    hide LineRows, Rename, IsPruned, SubwordsOk, WellTyped, Distinct, LabelsOf;
    LabelsInRange(v, Line(tokens), LineLabels(v, tokens)[j]);
    LabelTextUnchanged(v, words, grams, v', LineLabels(v, tokens)[j]);
  }

  /** Label numbers go on naming the same labels. */
  lemma LabelTextUnchanged(v: View, words: seq<int>, grams: seq<int>, v': View, l: nat)
    requires IsPruned(v, words, grams, v') && v.nwords + l < |v.words|
    ensures v'.nwords + l < |v'.words| && LabelText(v', l) == LabelText(v, l)
  {
    hide SubwordsOk, RowsKept, GramsRenumbered;
    assert SameEntry(v'.words[|words| + l], v.words[v.nwords + l]);
  }

  // ---- with the rows copied ----

  /** The vectors that a model reads for some rows. */
  function Vectors<V>(matrix: seq<V>, rows: seq<int>): seq<V> {
    if |rows| == 0 then [] else
    Vectors(matrix, rows[..|rows| - 1]) + (var r := rows[|rows| - 1]; if 0 <= r < |matrix| then [matrix[r]] else [])
  }

  /** The rows that pruning keeps, under their old numbers. */
  function Kept(idx: seq<int>, rows: seq<int>): seq<int> {
    if |rows| == 0 then [] else
    Kept(idx, rows[..|rows| - 1]) + (if rows[|rows| - 1] in idx then [rows[|rows| - 1]] else [])
  }

  /** After the row copy, the pruned model reads for a line exactly the vectors of its kept rows, in order. */
  lemma {:induction false} SameVectors<V>(matrix: seq<V>, idx: seq<int>, copied: seq<V>, rows: seq<int>)
    requires forall i :: 0 <= i < |idx| ==> 0 <= idx[i] < |matrix|
    requires |copied| == |idx| && forall i :: 0 <= i < |idx| ==> copied[i] == matrix[idx[i]]
    ensures Vectors(copied, Rename(idx, rows)) == Vectors(matrix, Kept(idx, rows))
  {
    if |rows| > 0 {
      var r := rows[|rows| - 1];
      SameVectors(matrix, idx, copied, rows[..|rows| - 1]);
      if r in idx {
        var a, p := Rename(idx, rows[..|rows| - 1]), NewRow(idx, r);
        assert (a + [p])[..|a|] == a;
        var b := Kept(idx, rows[..|rows| - 1]);
        assert (b + [r])[..|b|] == b;
      } else {
        assert RenameOne(idx, r) == [];
        assert Rename(idx, rows) == Rename(idx, rows[..|rows| - 1]);
        assert Kept(idx, rows) == Kept(idx, rows[..|rows| - 1]);
      }
    }
  }

  // ---- exactly when pruning keeps the meaning ----

  ghost predicate KeepsEveryLine(a: Args)
    requires Sizes(a)
  {
    forall v: View, words: seq<int>, grams: seq<int>, v': View, tokens: seq<Bytes> ::
      v.args == a && Unpruned(v) && IsPruned(v, words, grams, v') ==>
        LineRows(v', tokens) == Rename(words + grams, LineRows(v, tokens))
  }

  /** A word of `n` equal letters.  Its first n-gram of `n` characters starts with the marker. */
  function Letters(c: bv8, n: nat): (w: Bytes)
    ensures |w| == n && forall i :: 0 <= i < n ==> w[i] == c
  {
    seq(n, _ => c)
  }

  lemma {:induction false} PlainCharacters(w: Bytes, k: nat)
    requires k <= |w| && forall i :: 0 <= i < |w| ==> !Continues(w[i])
    ensures Characters(w, 0, k) == k
  {
    if k > 0 { PlainCharacters(w, k - 1); }
  }

  lemma LettersHaveNgram(a: Args, c: bv8, n: nat)
    requires Sizes(a) && n >= 2 && AsSize(a.minn) <= n <= AsSize(a.maxn) && !Continues(c)
    ensures var w := BOW + Letters(c, n) + EOW; Ngrams(a, w, |w|) != []
  {
    var w := BOW + Letters(c, n) + EOW;
    assert w[|w| - 1] == EOW[0];
    assert forall i :: 0 <= i < |w| ==> w[i] == 0x3C || w[i] == c || w[i] == 0x3E;
    PlainCharacters(w, n);
    assert IsNgram(a, w, 0, n);
    assert NgramStarting(a, w, 0, w[0..n]);
    NgramsAre(a, w, |w|, w[0..n]);
  }

  lemma {:induction false} HashIdsMatch(a: Args, grams: seq<Bytes>)
    ensures |HashIds(a, grams)| == |grams|
  {
    if |grams| > 0 { HashIdsMatch(a, grams[..|grams| - 1]); }
  }

  lemma {:induction false} PushesSome(v: View, ids: seq<int>, id: int)
    requires id in ids && |PushHash(v, id)| > 0
    ensures |PushAll(v, ids)| > 0
  {
    if ids[|ids| - 1] != id { PushesSome(v, ids[..|ids| - 1], id); }
  }

  /** A dictionary of one word. */
  function OneWord(a: Args, w: Bytes): View
    requires Sizes(a)
  {
    View(a, [Entry(w, 1, false, [0] + PushAll(View(a, [], 1, -1, map[]), SubwordIds(a, w)))], 1, -1, map[])
  }

  /** The same after pruning everything but the row of one n-gram. */
  function OneGram(a: Args, id: int): View {
    View(a, [], 0, 1, map[id := 0])
  }

  lemma OneWordIsUnpruned(a: Args, w: Bytes)
    requires ArgsOk(a) && !HasPrefix(w, a.prefix)
    ensures Unpruned(OneWord(a, w))
  {
    hide SubwordIds;
    PushAllSame(View(a, [], 1, -1, map[]), OneWord(a, w), SubwordIds(a, w));
  }

  lemma OneGramIsPruned(a: Args, w: Bytes, id: int)
    requires Sizes(a) && id >= 0
    ensures OneWord(a, w).args == OneGram(a, id).args == a && IsPruned(OneWord(a, w), [], [1 + id], OneGram(a, id))
  {
    hide SubwordIds, PushAll;
  }

  /** The rows of a line of one word. */
  lemma OneTokenRows(v: View, w: Bytes)
    requires Sizes(v.args) && w != EOS
    ensures LineRows(v, [w]) == TokenRows(v, w)
  {
    hide TokenRows, TokenHashes;
    var none: seq<Bytes> := [];
    assert RowsOf(v, none) == [];
    assert Line([w]) == [w] by { assert [w][1..] == []; }
    assert [w][..0] == none;
    assert RowsOf(v, [w]) == TokenRows(v, w);
    var hashes := HashesOf(v, [w]);
    assert |hashes| <= 1 by { OneHash(v, w); }
    assert WordNgramIds(v.args, hashes, |hashes|) == [];
  }

  lemma OneHash(v: View, w: Bytes)
    ensures |HashesOf(v, [w])| <= 1
  {
    assert [w][..0] == [];
  }

  /** A word that gains rows by being pruned: in the vocabulary it has none for its n-grams, out of it it has. */
  lemma GainsRows(a: Args, w: Bytes, id: int)
    requires ArgsOk(a) && a.maxn < 0 && !HasPrefix(w, a.prefix) && w != EOS && id in SubwordIds(a, w) && id >= 0
    ensures LineRows(OneGram(a, id), [w]) != Rename([] + [1 + id], LineRows(OneWord(a, w), [w]))
  {
    hide SubwordIds;
    OneTokenRows(OneWord(a, w), w);
    OneTokenRows(OneGram(a, id), w);
    PushesSome(OneGram(a, id), SubwordIds(a, w), id);
    assert Position(OneWord(a, w).words, w) == 0 && Position(OneGram(a, id).words, w) == -1;
    assert [] + [1 + id] == [1 + id];
    RenameSingle([1 + id], 0);
  }

  lemma MeaningKept(a: Args)
    requires ArgsOk(a) && SameNgrams(a)
    ensures KeepsEveryLine(a)
  {
    hide IsPruned, Unpruned, LineRows, LineLabels, Rename;
    forall v: View, words: seq<int>, grams: seq<int>, v': View, tokens: seq<Bytes> | v.args == a && Unpruned(v) &&
      IsPruned(v, words, grams, v')
      ensures v'.args == a && LineRows(v', tokens) == Rename(words + grams, LineRows(v, tokens)) {
      PruneKeepsLines(v, words, grams, v', tokens);
    }
  }

  lemma NotALabel(w: Bytes, prefix: Bytes)
    requires |w| > 0 && |prefix| > 0 && w[0] != prefix[0]
    ensures !HasPrefix(w, prefix)
  {
    assert |prefix| <= |w| ==> w[..|prefix|][0] == w[0];
  }

  lemma HasSubword(a: Args, c: bv8, n: nat) returns (id: int)
    requires ArgsOk(a) && n >= 2 && AsSize(a.minn) <= n <= AsSize(a.maxn) && !Continues(c) && c != EOS[0]
    ensures Letters(c, n) != EOS && id in SubwordIds(a, Letters(c, n)) && id >= 0
  {
    hide Ngrams, HashIds;
    var w := Letters(c, n);
    assert w[0] == c;
    LettersHaveNgram(a, c, n);
    HashIdsMatch(a, Ngrams(a, BOW + w + EOW, |BOW + w + EOW|));
    SubwordIdsNonNegative(a, w);
    id := SubwordIds(a, w)[0];
  }

  lemma MeaningLost(a: Args)
    requires ArgsOk(a) && !SameNgrams(a)
    ensures !KeepsEveryLine(a)
  {
    hide IsPruned, Unpruned, LineRows, Rename, SubwordIds, OneWord, OneGram, HasPrefix;
    var c: bv8 := if a.prefix[0] == 0x61 then 0x62 else 0x61;
    var n := if AsSize(a.minn) < 2 then 2 else AsSize(a.minn);
    var w := Letters(c, n);
    assert w[0] == c;
    NotALabel(w, a.prefix);
    var id := HasSubword(a, c, n);
    OneWordIsUnpruned(a, w);
    OneGramIsPruned(a, w, id);
    GainsRows(a, w, id);
  }

  /** Pruning keeps the meaning of every line of every dictionary if and only if the limit on n-grams is not negative,
      allows none, or there are no words.  A negative limit means no subwords for words in the vocabulary and no limit
      for the others, so a word that is pruned gains rows. */
  lemma PruneKeepsMeaningExactly(a: Args)
    requires ArgsOk(a)
    ensures KeepsEveryLine(a) <==> SameNgrams(a)
  {
    hide KeepsEveryLine;
    if SameNgrams(a) { MeaningKept(a); } else { MeaningLost(a); }
  }
}
