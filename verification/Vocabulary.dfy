/** What a dictionary means: the entries it holds, and the input rows and labels it makes of a line of tokens. */
module Vocabulary {
  import opened Subwords

  const EOS: Bytes := [0x3C, 0x2F, 0x73, 0x3E]
  const BOW: Bytes := [0x3C]
  const EOW: Bytes := [0x3E]

  datatype Entry = Entry(word: Bytes, count: int, isLabel: bool, subwords: seq<int>)

  /** A dictionary without its hash index.  `pruneSize` is negative until it is pruned. */
  datatype View = View(args: Args, words: seq<Entry>, nwords: nat, pruneSize: int, pruned: map<int, int>)

  /** The position of `w`, or -1. */
  function Position(words: seq<Entry>, w: Bytes): (p: int)
    ensures -1 <= p < |words|
    ensures p >= 0 ==> words[p].word == w
    ensures p < 0 ==> forall i :: 0 <= i < |words| ==> words[i].word != w
  {
    if |words| == 0 then -1
    else if words[|words| - 1].word == w then |words| - 1
    else Position(words[..|words| - 1], w)
  }

  ghost predicate Distinct(words: seq<Entry>) {
    forall i, j :: 0 <= i < j < |words| ==> words[i].word != words[j].word
  }

  /** No word is found at more than one place. */
  lemma PositionIs(words: seq<Entry>, i: nat)
    requires Distinct(words) && i < |words|
    ensures Position(words, words[i].word) == i
  {
  }

  predicate HasPrefix(w: Bytes, prefix: Bytes) {
    |prefix| <= |w| && w[..|prefix|] == prefix
  }

  /** Words come before labels. */
  ghost predicate WordsFirst(words: seq<Entry>, nwords: nat) {
    nwords <= |words| && forall i :: 0 <= i < |words| ==> (words[i].isLabel <==> nwords <= i)
  }

  ghost predicate WellTyped(words: seq<Entry>, prefix: Bytes) {
    forall i :: 0 <= i < |words| ==> (words[i].isLabel <==> HasPrefix(words[i].word, prefix))
  }

  /** The hash buckets are there when they are needed. */
  predicate ArgsOk(a: Args) {
    Sizes(a) && a.bucket < 0x8000_0000 && (0 < a.bucket || (a.bucket == 0 && a.maxn == 0 && a.wordNgrams <= 1))
  }

  // ---- rows ----

  /** `pushHash`: the row of a hashed n-gram, if the dictionary still has one. */
  function PushHash(v: View, id: int): seq<int> {
    if v.pruneSize == 0 || id < 0 then []
    else if v.pruneSize > 0 then (if id in v.pruned then [v.nwords + v.pruned[id]] else [])
    else [v.nwords + id]
  }

  function PushAll(v: View, ids: seq<int>): seq<int> {
    if |ids| == 0 then [] else PushAll(v, ids[..|ids| - 1]) + PushHash(v, ids[|ids| - 1])
  }

  /** Pushing depends on how the dictionary is pruned, not on its entries. */
  lemma {:induction false} PushAllSame(v: View, v': View, ids: seq<int>)
    requires v'.nwords == v.nwords && v'.pruneSize == v.pruneSize && v'.pruned == v.pruned
    ensures PushAll(v', ids) == PushAll(v, ids)
  {
    if |ids| > 0 { PushAllSame(v, v', ids[..|ids| - 1]); }
  }

  function Bucket(a: Args, h: nat): int {
    if a.bucket > 0 then h % a.bucket else 0
  }

  function HashIds(a: Args, grams: seq<Bytes>): seq<int> {
    if |grams| == 0 then [] else HashIds(a, grams[..|grams| - 1]) + [Bucket(a, Hash(grams[|grams| - 1]))]
  }

  /** The hashed n-grams of a word between its markers. */
  function SubwordIds(a: Args, w: Bytes): seq<int>
    requires Sizes(a)
  {
    if w == EOS then [] else HashIds(a, Ngrams(a, BOW + w + EOW, |BOW + w + EOW|))
  }

  /** What `initNgrams` stores with every entry. */
  ghost predicate SubwordsOk(v: View) {
    Sizes(v.args) && forall i :: 0 <= i < |v.words| ==>
      v.words[i].subwords == [i] + PushAll(v, SubwordIds(v.args, v.words[i].word))
  }

  function IsWord(v: View, token: Bytes): bool {
    var p := Position(v.words, token);
    if p < 0 then !HasPrefix(token, v.args.prefix) else !v.words[p].isLabel
  }

  /** `addSubwords` for a token of the word type. */
  function WordRows(v: View, token: Bytes): seq<int>
    requires Sizes(v.args)
  {
    var p := Position(v.words, token);
    if p < 0 then PushAll(v, SubwordIds(v.args, token))
    else if v.args.maxn <= 0 then [p]
    else v.words[p].subwords
  }

  function TokenRows(v: View, token: Bytes): seq<int>
    requires Sizes(v.args)
  {
    if IsWord(v, token) then WordRows(v, token) else []
  }

  function TokenLabels(v: View, token: Bytes): seq<int> {
    if !IsWord(v, token) && Position(v.words, token) >= 0 then [Position(v.words, token) - v.nwords] else []
  }

  /** A 32-bit hash stored in an `int32_t`. */
  function AsInt32(h: nat): int
    requires h < TWO_32
  {
    if h < 0x8000_0000 then h else h - TWO_32
  }

  function TokenHashes(v: View, token: Bytes): seq<int> {
    if IsWord(v, token) then [AsInt32(Hash(token))] else []
  }

  /** One word n-gram hash extended by the next word: 64-bit arithmetic, with the addend sign-extended. */
  function Extend(h: int, next: int): nat {
    (h * 116049371 + next) % TWO_64
  }

  /** The word n-grams that start with `h` and go on with the words from `j` up to `limit`. */
  function NgramsOfWords(a: Args, hashes: seq<int>, h: nat, j: nat, limit: int): seq<int>
    decreases |hashes| - j
  {
    if j < |hashes| && j < limit then
      var g := Extend(h, hashes[j]);
      [Bucket(a, g)] + NgramsOfWords(a, hashes, g, j + 1, limit)
    else
      []
  }

  function WordNgramIds(a: Args, hashes: seq<int>, upTo: nat): seq<int>
    requires upTo <= |hashes|
  {
    if upTo == 0 then [] else
    WordNgramIds(a, hashes, upTo - 1) + NgramsOfWords(a, hashes, hashes[upTo - 1] % TWO_64, upTo, upTo - 1 +
      a.wordNgrams)
  }

  // ---- lines ----

  /** A line ends with its end-of-sentence token. */
  function Line(tokens: seq<Bytes>): seq<Bytes> {
    if |tokens| == 0 then [] else if tokens[0] == EOS then [tokens[0]] else [tokens[0]] + Line(tokens[1..])
  }

  function RowsOf(v: View, tokens: seq<Bytes>): seq<int>
    requires Sizes(v.args)
  {
    if |tokens| == 0 then [] else RowsOf(v, tokens[..|tokens| - 1]) + TokenRows(v, tokens[|tokens| - 1])
  }

  function LabelsOf(v: View, tokens: seq<Bytes>): seq<int> {
    if |tokens| == 0 then [] else LabelsOf(v, tokens[..|tokens| - 1]) + TokenLabels(v, tokens[|tokens| - 1])
  }

  function HashesOf(v: View, tokens: seq<Bytes>): seq<int> {
    if |tokens| == 0 then [] else HashesOf(v, tokens[..|tokens| - 1]) + TokenHashes(v, tokens[|tokens| - 1])
  }

  /** The rows `getLine` delivers: those of the tokens, then those of the word n-grams. */
  function LineRows(v: View, tokens: seq<Bytes>): seq<int>
    requires Sizes(v.args)
  {
    var line := Line(tokens);
    var hashes := HashesOf(v, line);
    RowsOf(v, line) + PushAll(v, WordNgramIds(v.args, hashes, |hashes|))
  }

  function LineLabels(v: View, tokens: seq<Bytes>): seq<int> {
    LabelsOf(v, Line(tokens))
  }

  /** The text of a label. */
  function LabelText(v: View, label_: int): Bytes
    requires 0 <= label_ && v.nwords + label_ < |v.words|
  {
    v.words[v.nwords + label_].word
  }
}
