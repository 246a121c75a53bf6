/** The dictionary's hash index: open addressing with linear probing over a table of positions. */
module ProbeTable {
  import opened Modular
  import opened Sums
  import opened Subwords
  import opened Vocabulary

  const FREE: int := -1

  /** The `e`-th slot to look at in a table of `m`. */
  function Place(h: nat, e: nat, m: nat): (p: nat)
    requires m > 0
    ensures p < m
  {
    (h + e) % m
  }

  lemma NextPlace(h: nat, e: nat, m: nat)
    requires m > 0
    ensures (Place(h, e, m) + 1) % m == Place(h, e + 1, m)
  {
    Step(h + e, m);
  }

  function Probe(t: seq<int>, h: nat, e: nat): int
    requires |t| > 0
  {
    t[Place(h, e, |t|)]
  }

  /** Probing from `h` finds position `i` after `d` slots that are all taken. */
  ghost predicate ReachedAt(t: seq<int>, h: nat, i: int, d: nat) {
    && 0 < |t| && d < |t| && Probe(t, h, d) == i && forall e: nat :: e < d ==> Probe(t, h, e) != FREE
  }

  ghost predicate Reached(t: seq<int>, h: nat, i: int) {
    exists d: nat :: ReachedAt(t, h, i, d)
  }

  function IsFree(x: int): int {
    if x == FREE then 1 else 0
  }

  /** The table indexes exactly the first `n` words. */
  ghost predicate Indexes(t: seq<int>, words: seq<Entry>, n: nat) {
    && n <= |words| && n <= |t|
    && (forall p :: 0 <= p < |t| ==> t[p] == FREE || 0 <= t[p] < n)
    && (forall i :: 0 <= i < n ==> Reached(t, Hash(words[i].word), i))
    && Sum(t, IsFree) == |t| - n
  }

  /** Slot `id` is where the search for `w` stops: the first that is free or holds `w`. */
  ghost predicate StopsAt(t: seq<int>, words: seq<Entry>, w: Bytes, id: nat, d: nat) {
    && 0 < |t| && id == Place(Hash(w), d, |t|) && d < |t|
    && forall e: nat :: e < d ==> PassedOver(t, words, w, e)
  }

  ghost predicate PassedOver(t: seq<int>, words: seq<Entry>, w: Bytes, e: nat)
    requires |t| > 0
  {
    0 <= Probe(t, Hash(w), e) < |words| && words[Probe(t, Hash(w), e)].word != w
  }

  lemma EmptyIndex(t: seq<int>, words: seq<Entry>)
    requires forall p :: 0 <= p < |t| ==> t[p] == FREE
    ensures Indexes(t, words, 0)
  {
    SumAll(t, IsFree, 1);
  }

  /** A search cannot go round: it would have seen the free slot there is. */
  lemma SearchEnds(t: seq<int>, words: seq<Entry>, n: nat, w: Bytes)
    requires Indexes(t, words, n) && n < |t|
    ensures exists e: nat :: e < |t| && Probe(t, Hash(w), e) == FREE
  {
    if forall p :: 0 <= p < |t| ==> t[p] != FREE {
      SumAll(t, IsFree, 0);
    }
    var p :| 0 <= p < |t| && t[p] == FREE;
    var e := OneTurn(Hash(w), p, |t|);
    assert Probe(t, Hash(w), e) == FREE;
  }

  /** What a search that stops at a free slot, or at a word, says about the words indexed. */
  lemma SearchIsRight(t: seq<int>, words: seq<Entry>, n: nat, w: Bytes, id: nat, d: nat)
    requires Indexes(t, words, n) && StopsAt(t, words, w, id, d)
    ensures t[id] == FREE ==> forall i :: 0 <= i < n ==> words[i].word != w
  {
    if t[id] == FREE {
      forall i | 0 <= i < n ensures words[i].word != w {
        NotThere(t, words, n, w, id, d, i);
      }
    }
  }

  lemma NotThere(t: seq<int>, words: seq<Entry>, n: nat, w: Bytes, id: nat, d: nat, i: nat)
    requires Indexes(t, words, n) && StopsAt(t, words, w, id, d) && id < |t| && t[id] == FREE && i < n
    ensures words[i].word != w
  {
    hide Hash, StopsAt;
    assert Reached(t, Hash(words[i].word), i);
    var di: nat :| ReachedAt(t, Hash(words[i].word), i, di);
    if Hash(words[i].word) == Hash(w) { StopsEarlier(t, words, w, id, d, i, di); }
  }

  /** Position `i`, reached on the way, has been passed over; beyond a free slot it could not have been reached. */
  lemma StopsEarlier(t: seq<int>, words: seq<Entry>, w: Bytes, id: nat, d: nat, i: nat, di: nat)
    requires StopsAt(t, words, w, id, d) && id < |t| && t[id] == FREE && ReachedAt(t, Hash(w), i, di) && i < |words|
    ensures words[i].word != w
  {
    hide Hash;
    assert Probe(t, Hash(w), d) == FREE;
    assert di < d ==> PassedOver(t, words, w, di);
  }

  /** A new word goes into the slot where its search stopped. */
  lemma InsertKeeps(t: seq<int>, words: seq<Entry>, n: nat, id: nat, d: nat)
    requires Indexes(t, words, n) && n < |words| && StopsAt(t, words, words[n].word, id, d) && t[id] == FREE
    ensures Indexes(t[id := n], words, n + 1)
  {
    hide Hash;
    var t' := t[id := n];
    SumUpdate(t, id, n, IsFree);
    SumNonNegative(t', IsFree);
    forall i | 0 <= i < n + 1 ensures Reached(t', Hash(words[i].word), i) {
      if i < n {
        assert Reached(t, Hash(words[i].word), i);
        var di: nat :| ReachedAt(t, Hash(words[i].word), i, di);
        StillReached(t, t', id, n, Hash(words[i].word), i, di);
      } else {
        NewReached(t, t', words, id, n, d);
      }
    }
  }

  lemma StillReached(t: seq<int>, t': seq<int>, id: nat, n: nat, h: nat, i: int, d: nat)
    requires id < |t| && t[id] == FREE && t' == t[id := n] && ReachedAt(t, h, i, d) && i != FREE
    ensures ReachedAt(t', h, i, d)
  {
    forall e: nat | e < d ensures Probe(t', h, e) != FREE { assert Probe(t, h, e) != FREE; }
  }

  lemma NewReached(t: seq<int>, t': seq<int>, words: seq<Entry>, id: nat, n: nat, d: nat)
    requires id < |t| && t' == t[id := n] && n < |words| && StopsAt(t, words, words[n].word, id, d)
    ensures ReachedAt(t', Hash(words[n].word), n, d)
  {
    hide Hash;
    forall e: nat | e < d ensures Probe(t', Hash(words[n].word), e) != FREE {
      assert PassedOver(t, words, words[n].word, e);
    }
  }

  /** The index only depends on the words of the entries it covers. */
  lemma IndexesSame(t: seq<int>, words: seq<Entry>, words': seq<Entry>, n: nat)
    requires Indexes(t, words, n) && n <= |words'| && forall i :: 0 <= i < n ==> words'[i].word == words[i].word
    ensures Indexes(t, words', n)
  {
    hide Hash, Reached;
  }
}

/** The order in which a dictionary keeps its entries, and the entries a threshold keeps. */
module EntryOrder {
  import opened Subwords
  import opened Vocabulary
  import Huffman

  /** Words before labels, and within each the more frequent first. */
  predicate Before(a: Entry, b: Entry) {
    if a.isLabel != b.isLabel then !a.isLabel else a.count > b.count
  }

  ghost predicate Sorted(es: seq<Entry>) {
    forall i, j :: 0 <= i < j < |es| ==> !Before(es[j], es[i])
  }

  lemma InsertSorted(r: seq<Entry>, e: Entry, k: nat)
    requires Sorted(r) && k <= |r| && (forall i :: 0 <= i < k ==> !Before(e, r[i])) && (k < |r| ==> Before(e, r[k]))
    ensures Sorted(r[..k] + [e] + r[k..])
  {
    forall i | k <= i < |r| ensures Before(e, r[i]) {
      if i > k { assert !Before(r[i], r[k]); }
    }
  }

  lemma InsertDistinct(r: seq<Entry>, e: Entry, k: nat)
    requires Distinct(r) && k <= |r| && forall i :: 0 <= i < |r| ==> r[i].word != e.word
    ensures Distinct(r[..k] + [e] + r[k..])
  {
  }

  lemma InsertContents(r: seq<Entry>, e: Entry, k: nat)
    requires k <= |r|
    ensures multiset(r[..k] + [e] + r[k..]) == multiset(r) + multiset{e}
  {
    assert r == r[..k] + r[k..];
  }

  lemma TakeOneMore(es: seq<Entry>, i: nat)
    requires i < |es|
    ensures multiset(es[..i + 1]) == multiset(es[..i]) + multiset{es[i]}
  {
    assert es[..i + 1] == es[..i] + [es[i]];
  }

  /** `std::sort` by contract: in order, the same entries, none twice. */
  method SortEntries(es: seq<Entry>) returns (r: seq<Entry>)
    ensures Sorted(r) && multiset(r) == multiset(es) && |r| == |es|
    ensures Distinct(es) ==> Distinct(r)
  {
    hide Sorted, Distinct, Before;
    r := [];
    NothingToSort();
    for i := 0 to |es|
      invariant Sorted(r) && multiset(r) == multiset(es[..i]) && |r| == i
      invariant Distinct(es) ==> Distinct(r)
    {
      var k := 0;
      while k < |r| && !Before(es[i], r[k])
        invariant 0 <= k <= |r| && forall j :: 0 <= j < k ==> !Before(es[i], r[j])
      {
        k := k + 1;
      }
      InsertSorted(r, es[i], k);
      InsertContents(r, es[i], k);
      TakeOneMore(es, i);
      if Distinct(es) {
        NotYetThere(es, r, i);
        InsertDistinct(r, es[i], k);
      }
      r := r[..k] + [es[i]] + r[k..];
    }
    assert es[..|es|] == es;
  }

  lemma NothingToSort()
    ensures Sorted([]) && Distinct([])
  {
  }

  lemma NotYetThere(es: seq<Entry>, r: seq<Entry>, i: nat)
    requires i < |es| && Distinct(es) && multiset(r) == multiset(es[..i])
    ensures forall j :: 0 <= j < |r| ==> r[j].word != es[i].word
  {
    forall j | 0 <= j < |r| ensures r[j].word != es[i].word {
      assert r[j] in multiset(es[..i]);
      var m :| 0 <= m < i && es[m] == r[j];
    }
  }

  // ---- thresholds ----

  predicate Frequent(e: Entry, t: int, tl: int) {
    if e.isLabel then e.count >= tl else e.count >= t
  }

  function KeepFrequent(es: seq<Entry>, t: int, tl: int): (r: seq<Entry>)
    ensures |r| <= |es|
  {
    if |es| == 0 then [] else
    KeepFrequent(es[..|es| - 1], t, tl) + (if Frequent(es[|es| - 1], t, tl) then [es[|es| - 1]] else [])
  }

  lemma {:induction false} KeptAre(es: seq<Entry>, t: int, tl: int, e: Entry)
    ensures e in KeepFrequent(es, t, tl) <==> e in es && Frequent(e, t, tl)
  {
    if |es| > 0 {
      KeptAre(es[..|es| - 1], t, tl, e);
      assert es == es[..|es| - 1] + [es[|es| - 1]];
    }
  }

  lemma {:induction false} KeptSorted(es: seq<Entry>, t: int, tl: int)
    requires Sorted(es)
    ensures Sorted(KeepFrequent(es, t, tl))
  {
    if |es| > 0 {
      var front, last := es[..|es| - 1], es[|es| - 1];
      KeptSorted(front, t, tl);
      forall i | 0 <= i < |KeepFrequent(front, t, tl)| ensures !Before(last, KeepFrequent(front, t, tl)[i]) {
        var e := KeepFrequent(front, t, tl)[i];
        KeptAre(front, t, tl, e);
        var m :| 0 <= m < |front| && front[m] == e;
        assert es[m] == e;
      }
    }
  }

  lemma {:induction false} KeptDistinct(es: seq<Entry>, t: int, tl: int)
    requires Distinct(es)
    ensures Distinct(KeepFrequent(es, t, tl))
  {
    if |es| > 0 {
      var front, last := es[..|es| - 1], es[|es| - 1];
      KeptDistinct(front, t, tl);
      forall i | 0 <= i < |KeepFrequent(front, t, tl)| ensures KeepFrequent(front, t, tl)[i].word != last.word {
        var e := KeepFrequent(front, t, tl)[i];
        KeptAre(front, t, tl, e);
        var m :| 0 <= m < |front| && front[m] == e;
        assert es[m] == e;
      }
    }
  }

  /** An entry below the threshold makes room. */
  lemma {:induction false} KeptFewer(es: seq<Entry>, t: int, tl: int, i: nat)
    requires i < |es| && !Frequent(es[i], t, tl)
    ensures |KeepFrequent(es, t, tl)| < |es|
  {
    if i < |es| - 1 { KeptFewer(es[..|es| - 1], t, tl, i); }
  }

  // ---- counts ----

  function CountOf(words: seq<Entry>, w: Bytes): int {
    if Position(words, w) >= 0 then words[Position(words, w)].count else 0
  }

  lemma CountOfEntry(words: seq<Entry>, e: Entry)
    requires Distinct(words) && e in words
    ensures CountOf(words, e.word) == e.count && Position(words, e.word) >= 0 && words[Position(words, e.word)] == e
  {
    var i :| 0 <= i < |words| && words[i] == e;
    PositionIs(words, i);
  }

  /** The same entries in another order, or fewer of them: what each word's count becomes. */
  lemma ThresholdCounts(es: seq<Entry>, r: seq<Entry>, t: int, tl: int, w: Bytes)
    requires Distinct(es) && Distinct(r) && forall e :: e in r <==> e in es && Frequent(e, t, tl)
    ensures CountOf(r, w) == if Position(es, w) >= 0 && Frequent(es[Position(es, w)], t, tl) then CountOf(es, w) else 0
  {
    if Position(es, w) >= 0 {
      var e := es[Position(es, w)];
      if Frequent(e, t, tl) { CountOfEntry(r, e); }
    }
    if Position(r, w) >= 0 {
      CountOfEntry(es, r[Position(r, w)]);
    }
  }

  /** In order, words come first; how many they are is where the labels start. */
  function WordCount(es: seq<Entry>): nat {
    if |es| == 0 then 0 else WordCount(es[..|es| - 1]) + if es[|es| - 1].isLabel then 0 else 1
  }

  lemma {:induction false} SortedWordsFirst(es: seq<Entry>)
    requires Sorted(es)
    ensures WordsFirst(es, WordCount(es))
  {
    if |es| > 0 {
      var front, last := es[..|es| - 1], es[|es| - 1];
      SortedWordsFirst(front);
      assert |front| > 0 ==> !Before(last, es[|front| - 1]);
    }
  }

  // ---- what the loss is built from ----

  /** `getCounts`. */
  function Counts(es: seq<Entry>, labels: bool): seq<int> {
    if |es| == 0 then [] else
    Counts(es[..|es| - 1], labels) + (if es[|es| - 1].isLabel == labels then [es[|es| - 1].count] else [])
  }

  lemma {:induction false} CountsAreCounts(es: seq<Entry>, labels: bool, k: nat)
    requires k < |Counts(es, labels)|
    ensures exists i :: 0 <= i < |es| && es[i].isLabel == labels && es[i].count == Counts(es, labels)[k]
  {
    var front := es[..|es| - 1];
    if k < |Counts(front, labels)| {
      CountsAreCounts(front, labels, k);
      var i :| 0 <= i < |front| && front[i].isLabel == labels && front[i].count == Counts(front, labels)[k];
      assert es[i] == front[i];
    } else {
      assert es[|es| - 1].isLabel == labels;
    }
  }

  /** The counts that `getCounts` hands to the loss come in descending order, as Huffman's algorithm needs them. */
  lemma {:induction false} CountsDescend(es: seq<Entry>, labels: bool)
    requires Sorted(es) && forall i :: 0 <= i < |es| ==> es[i].count >= 0
    ensures Huffman.Descending(Counts(es, labels))
  {
    if |es| > 0 {
      var front, last := es[..|es| - 1], es[|es| - 1];
      CountsDescend(front, labels);
      forall k | 0 <= k < |Counts(front, labels)| && last.isLabel == labels
        ensures last.count <= Counts(front, labels)[k] {
        CountsAreCounts(front, labels, k);
        var i :| 0 <= i < |front| && front[i].isLabel == labels && front[i].count == Counts(front, labels)[k];
        assert !Before(last, es[i]);
      }
    }
  }
}

/** `Dictionary`: the vocabulary with its hash index, updated in place. */
module Dictionaries {
  import opened Subwords
  import opened Vocabulary
  import opened EntryOrder
  import opened ProbeTable
  import opened Pruning

  const MAX_VOCAB_SIZE: nat := 30_000_000

  class Dictionary {
    const args: Args
    var word2int: array<int>
    var words: seq<Entry>
    var size: nat
    var nwords: nat
    var nlabels: nat
    var ntokens: nat
    var pruneSize: int
    var pruned: map<int, int>

    /** The index agrees with the vector of entries, and has room. */
    ghost predicate Valid()
      reads this, word2int
    {
      && size == |words| < word2int.Length
      && Distinct(words) && Indexes(word2int[..], words, size)
    }

    ghost function AsView(): View
      reads this
    {
      View(args, words, nwords, pruneSize, pruned)
    }

    constructor (a: Args)
      ensures Valid() && fresh(word2int) && word2int.Length == MAX_VOCAB_SIZE && args == a
      ensures words == [] && nwords == nlabels == ntokens == 0 && pruneSize == -1 && pruned == map[]
    {
      args := a;
      words, size, nwords, nlabels, ntokens, pruneSize, pruned := [], 0, 0, 0, 0, -1, map[];
      var table := new int[MAX_VOCAB_SIZE](_ => FREE);
      word2int := table;
      new;
      EmptyIndex(word2int[..], words);
    }

    /** `find`, over the first `n` entries: the slot of `w`, or the free slot where it would go. */
    method Find(w: Bytes, ghost n: nat) returns (id: nat, ghost d: nat)
      requires Indexes(word2int[..], words, n) && n < word2int.Length
      ensures id < word2int.Length && StopsAt(word2int[..], words, w, id, d)
      ensures word2int[id] == FREE || (0 <= word2int[id] < n && words[word2int[id]].word == w)
      ensures word2int[id] == FREE ==> forall i :: 0 <= i < n ==> words[i].word != w
    {
      hide Indexes, Hash, HashBytes, Place;
      ghost var t := word2int[..];
      SearchEnds(t, words, n, w);
      ghost var last: nat :| last < |t| && Probe(t, Hash(w), last) == FREE;
      var h := ComputeHash(w);
      id := (h as int) % word2int.Length;
      d := 0;
      FirstPlace(h, w, |t|);
      InRange(t, words, n, id);
      while word2int[id] != FREE && words[word2int[id]].word != w
        invariant d <= last && id == Place(Hash(w), d, |t|) && (word2int[id] == FREE || 0 <= word2int[id] < n) &&
          n <= |words|
        invariant forall e: nat :: e < d ==> PassedOver(t, words, w, e)
        decreases last - d
      {
        assert PassedOver(t, words, w, d);
        NextPlace(Hash(w), d, |t|);
        id := (id + 1) % word2int.Length;
        d := d + 1;
        InRange(t, words, n, id);
      }
      SearchIsRight(t, words, n, w, id, d);
    }

    /** The position of a word, or -1. */
    method GetId(w: Bytes) returns (p: int)
      requires Valid()
      ensures p == Position(words, w)
    {
      ghost var d;
      var id;
      id, d := Find(w, size);
      p := word2int[id];
      if p >= 0 { PositionIs(words, p); }
    }

    /** Entry `n` goes into the index of those before it. */
    method IndexEntry(n: nat)
      requires Indexes(word2int[..], words, n) && n < |words| && n < word2int.Length && Distinct(words[..n + 1])
      modifies word2int
      ensures Indexes(word2int[..], words, n + 1)
    {
      ghost var d;
      var id;
      id, d := Find(words[n].word, n);
      NewWord(words, n);
      InsertKeeps(word2int[..], words, n, id, d);
      ghost var t := word2int[..];
      word2int[id] := n;
      assert word2int[..] == t[id := n];
    }

    /** `add`: one more occurrence of `w`, and of nothing else. */
    method Add(w: Bytes)
      requires Valid() && |words| + 1 < word2int.Length
      modifies `words, `size, `ntokens, word2int
      ensures Valid() && ntokens == old(ntokens) + 1 && word2int == old(word2int)
      ensures Added(old(words), words, w, args.prefix)
    {
      hide Indexes, Distinct, StopsAt;
      ghost var d;
      var id;
      id, d := Find(w, size);
      ntokens := ntokens + 1;
      ghost var t := word2int[..];
      if word2int[id] == FREE {
        AddNew(t, words, Entry(w, 1, HasPrefix(w, args.prefix), []), id, d);
        words := words + [Entry(w, 1, HasPrefix(w, args.prefix), [])];
        word2int[id] := size;
        assert word2int[..] == t[id := size];
        size := size + 1;
      } else {
        var p := word2int[id];
        OnlyThere(words, p);
        AddMore(t, words, p, words[p].(count := words[p].count + 1));
        words := words[p := words[p].(count := words[p].count + 1)];
      }
    }

    /** `std::fill(word2int_.begin(), word2int_.end(), -1)`. */
    method ClearIndex()
      modifies word2int
      ensures forall p :: 0 <= p < word2int.Length ==> word2int[p] == FREE
    {
      for p := 0 to word2int.Length
        invariant forall q :: 0 <= q < p ==> word2int[q] == FREE
      {
        word2int[p] := FREE;
      }
    }

    /** The first entries that reach their threshold, in order. */
    method RemoveRare(es: seq<Entry>, t: int, tl: int) returns (r: seq<Entry>)
      ensures r == KeepFrequent(es, t, tl)
    {
      r := [];
      for i := 0 to |es|
        invariant r == KeepFrequent(es[..i], t, tl)
      {
        assert es[..i + 1][..i] == es[..i];
        if !((!es[i].isLabel && es[i].count < t) || (es[i].isLabel && es[i].count < tl)) {
          r := r + [es[i]];
        }
      }
      assert es[..|es|] == es;
    }

    /** `threshold`: sorted, without the rare entries, words before labels, and indexed anew. */
    method Threshold(t: int, tl: int)
      requires Valid()
      modifies `words, `size, `nwords, `nlabels, word2int
      ensures Valid() && word2int == old(word2int) && |words| <= |old(words)|
      ensures Sorted(words) && WordsFirst(words, nwords) && nwords + nlabels == |words|
      ensures Thresholded(old(words), words, t, tl)
      ensures (exists i :: 0 <= i < |old(words)| && !Frequent(old(words)[i], t, tl)) ==> |words| < |old(words)|
    {
      hide Indexes, Distinct, Sorted, WordsFirst, KeepFrequent;
      ghost var before := words;
      var sorted := SortEntries(words);
      words := RemoveRare(sorted, t, tl);
      ThresholdedEntries(before, sorted, t, tl);
      ghost var kept := words;
      size, nwords, nlabels := 0, 0, 0;
      ClearIndex();
      EmptyIndex(word2int[..], words);
      while size < |words|
        invariant words == kept && word2int == old(word2int) && size <= |words| && Indexes(word2int[..], words, size)
        invariant nwords == WordCount(words[..size]) && nwords + nlabels == size
      {
        assert words[..size + 1][..size] == words[..size];
        DistinctPrefix(words, size + 1);
        IndexEntry(size);
        if words[size].isLabel { nlabels := nlabels + 1; } else { nwords := nwords + 1; }
        size := size + 1;
      }
      assert words[..|words|] == words;
      SortedWordsFirst(words);
    }

    // ---- reading a corpus ----

    /** `readFromFile` over the corpus' tokens; false when no entry is left.  The table is thinned out only when the
        corpus has more different tokens than fit three quarters of it, and otherwise the tallies are exact. */
    method ReadFromFile(tokens: seq<Bytes>, minCount: int, minCountLabel: int) returns (ok: bool)
      requires Valid() && words == [] && word2int.Length == MAX_VOCAB_SIZE && ArgsOk(args)
      modifies `words, `size, `nwords, `nlabels, `ntokens, word2int
      ensures Valid() && Sorted(words) && WordsFirst(words, nwords) && nwords + nlabels == |words| &&
        WellTyped(words, args.prefix)
      ensures 4 * size <= 3 * MAX_VOCAB_SIZE && ntokens == old(ntokens) + |tokens| && ok == (size > 0) &&
        SubwordsOk(AsView())
      ensures Tallied(words, tokens, args.prefix, minCount, minCountLabel, 4 * |Seen(tokens)| <= 3 * MAX_VOCAB_SIZE)
    {
      hide Indexes, Distinct, Sorted, WordsFirst, WellTyped, Tally, Tallied, SubwordsOk, ArgsOk;
      var minThreshold := 1;
      ghost var exact := 4 * |Seen(tokens)| <= 3 * MAX_VOCAB_SIZE;
      NothingTallied(tokens, args.prefix, exact);
      for i := 0 to |tokens|
        invariant Valid() && word2int == old(word2int) && ntokens == old(ntokens) + i && minThreshold >= 1
        invariant 4 * size <= 3 * MAX_VOCAB_SIZE && Tally(words, tokens[..i], args.prefix, exact)
      {
        ghost var before := words;
        Add(tokens[i]);
        TallyOneMore(before, words, tokens, i, args.prefix, exact);
        WordsSeen(words, tokens, i + 1, args.prefix, exact);
        if 4 * size > 3 * MAX_VOCAB_SIZE {
          minThreshold := minThreshold + 1;
          before := words;
          FreshIsRare(before, minThreshold);
          Threshold(minThreshold, minThreshold);
          TallyFewer(before, words, tokens[..i + 1], args.prefix, minThreshold);
        }
      }
      assert tokens[..|tokens|] == tokens;
      ghost var all := words;
      Threshold(minCount, minCountLabel);
      TallyFinal(all, words, tokens, args.prefix, minCount, minCountLabel, exact);
      ghost var unmarked := words;
      ArgsAreSizes(args);
      InitNgrams();
      SameWords(word2int[..], unmarked, words);
      TalliedSame(unmarked, words, tokens, args.prefix, minCount, minCountLabel, exact, nwords);
      ok := size > 0;
    }

    // ---- subwords ----

    method PushHash(hashes: seq<int>, id: int) returns (r: seq<int>)
      ensures r == hashes + Vocabulary.PushHash(AsView(), id)
    {
      r := hashes;
      if pruneSize == 0 || id < 0 { return; }
      var row := id;
      if pruneSize > 0 {
        if id in pruned { row := pruned[id]; } else { return; }
      }
      r := r + [nwords + row];
    }

    /** `computeSubwords`: the rows of the word's n-grams, in order. */
    method ComputeSubwords(w: Bytes, ngrams: seq<int>) returns (r: seq<int>)
      requires ArgsOk(args)
      ensures r == ngrams + PushAll(AsView(), HashIds(args, Ngrams(args, w, |w|)))
    {
      hide PushAll, HashIds, NgramsAt, ArgsOk;
      ghost var v := AsView();
      ArgsAreSizes(args);
      NothingToPush(v, args);
      r := ngrams;
      for i := 0 to |w|
        invariant r == ngrams + PushAll(v, HashIds(args, Ngrams(args, w, i)))
      {
        ghost var before := r;
        r := SubwordsAt(w, i, r);
        PushJoins(v, args, Ngrams(args, w, i), NgramsAt(args, w, i));
      }
    }

    /** The n-grams that start at one byte. */
    method SubwordsAt(w: Bytes, i: nat, ngrams: seq<int>) returns (r: seq<int>)
      requires ArgsOk(args) && i < |w|
      ensures r == ngrams + PushAll(AsView(), HashIds(args, NgramsAt(args, w, i)))
    {
      hide Hash, HashBytes, Vocabulary.PushHash, PushAll, HashIds, NgramsFrom, Bucket;
      ghost var v := AsView();
      NothingToPush(v, args);
      r := ngrams;
      if Continues(w[i]) {
        assert ngrams + [] == ngrams;
        return;
      }
      ghost var done: seq<Bytes> := [];
      var ngram: Bytes := [];
      var j, n := i, 1;
      while j < |w| && n <= AsSize(args.maxn)
        invariant i <= j <= |w| && n >= 1 && ngram == w[i..j]
        invariant done + NgramsFrom(args, w, i, j, n) == NgramsAt(args, w, i)
        invariant r == ngrams + PushAll(v, HashIds(args, done))
        decreases |w| - j
      {
        ghost var end := Boundary(w, j + 1);
        NgramsStep(args, w, i, j, n, done);
        ngram := ngram + [w[j]];
        j := j + 1;
        while j < |w| && Continues(w[j])
          invariant i <= j <= |w| && ngram == w[i..j] && Boundary(w, j) == end
        {
          ngram := ngram + [w[j]];
          j := j + 1;
        }
        if n >= AsSize(args.minn) && !(n == 1 && (i == 0 || j == |w|)) {
          var h := ComputeHash(ngram);
          BucketOfHash(args, ngram, h);
          PushOneMore(v, args, done, ngram);
          r := PushHash(r, (h as int) % args.bucket);
          done := done + [ngram];
        }
        n := n + 1;
      }
      NgramsEnd(args, w, i, j, n);
      assert done + [] == done;
    }

    /** `initNgrams`: the subwords of every entry. */
    method InitNgrams()
      requires size == |words| && ArgsOk(args)
      modifies `words
      ensures SubwordsOk(AsView()) && |words| == |old(words)|
      ensures forall i :: 0 <= i < |words| ==> SameEntry(words[i], old(words)[i])
    {
      hide Indexes, Distinct, Ngrams, HashIds, PushAll, SubwordsOk, ArgsOk;
      ArgsAreSizes(args);
      ghost var v, before := View(args, [], nwords, pruneSize, pruned), words;
      for i := 0 to size
        invariant size == |words| == |before| && Marked(v, words, i)
        invariant forall k :: 0 <= k < |words| ==> SameEntry(words[k], before[k])
      {
        var subwords := [i];
        if words[i].word != EOS {
          ghost var now := AsView();
          subwords := ComputeSubwords(BOW + words[i].word + EOW, subwords);
          PushAllSame(v, now, SubwordIds(args, words[i].word));
        } else {
          NothingPushed(v);
        }
        words := words[i := words[i].(subwords := subwords)];
      }
      MarkedAll(v, AsView());
    }

    // ---- lines ----

    /** `addSubwords`: the rows of one word. */
    method AddSubwords(line: seq<int>, token: Bytes, wid: int) returns (r: seq<int>)
      requires ArgsOk(args) && wid == Position(words, token)
      ensures r == line + WordRows(AsView(), token)
    {
      hide Ngrams, HashIds, PushAll;
      NothingPushed(AsView());
      if wid < 0 {
        if token != EOS {
          r := ComputeSubwords(BOW + token + EOW, line);
        } else {
          r := line + [];
        }
      } else if args.maxn <= 0 {
        r := line + [wid];
      } else {
        r := line + words[wid].subwords;
      }
    }

    /** `addWordNgrams`: the rows of runs of up to `wordNgrams` words. */
    method AddWordNgrams(line: seq<int>, hashes: seq<int>) returns (r: seq<int>)
      requires ArgsOk(args)
      ensures r == line + PushAll(AsView(), WordNgramIds(args, hashes, |hashes|))
    {
      hide NgramsOfWords, PushAll, ArgsOk;
      ghost var v := AsView();
      NoIds(v);
      r := line;
      for i := 0 to |hashes|
        invariant r == line + PushAll(v, WordNgramIds(args, hashes, i))
      {
        r := NgramsOfOneWord(r, hashes, i);
        PushIdsJoin(v, WordNgramIds(args, hashes, i),
          NgramsOfWords(args, hashes, hashes[i] % TWO_64, i + 1, i + args.wordNgrams));
      }
    }

    /** The runs that start with one word. */
    method NgramsOfOneWord(line: seq<int>, hashes: seq<int>, i: nat) returns (r: seq<int>)
      requires ArgsOk(args) && i < |hashes|
      ensures r == line + PushAll(AsView(), NgramsOfWords(args, hashes, hashes[i] % TWO_64, i + 1, i + args.wordNgrams))
    {
      hide NgramsOfWords, PushAll, Extend, Vocabulary.PushHash;
      ghost var v, done: seq<int> := AsView(), [];
      NoIds(v);
      r := line;
      var h: nat, j := hashes[i] % TWO_64, i + 1;
      while j < |hashes| && j < i + args.wordNgrams
        invariant i < j && done + NgramsOfWords(args, hashes, h, j, i + args.wordNgrams) ==
          NgramsOfWords(args, hashes, hashes[i] % TWO_64, i + 1, i + args.wordNgrams)
        invariant r == line + PushAll(v, done)
        decreases |hashes| - j
      {
        OneRunMore(args, hashes, h, j, i + args.wordNgrams, done);
        h := Extend(h, hashes[j]);
        PushOneId(v, done, h % args.bucket);
        r := PushHash(r, h % args.bucket);
        done := done + [h % args.bucket];
        j := j + 1;
      }
      NoRunMore(args, hashes, h, j, i + args.wordNgrams);
      assert done + [] == done;
    }

    /** What one token adds to the line. */
    method AddToken(token: Bytes, rows: seq<int>, labels: seq<int>, hashes: seq<int>)
        returns (rows': seq<int>, labels': seq<int>, hashes': seq<int>)
      requires Valid() && ArgsOk(args)
      ensures rows' == rows + TokenRows(AsView(), token) && labels' == labels + TokenLabels(AsView(), token)
      ensures hashes' == hashes + TokenHashes(AsView(), token)
    {
      hide Indexes, Distinct, WordRows, Hash, HashBytes, HasPrefix, ArgsOk, TokenRows, TokenLabels, TokenHashes,
        AsInt32;
      ArgsAreSizes(args);
      TokenIs(AsView(), token);
      var h := ComputeHash(token);
      HashOf(token, h);
      var wid := GetId(token);
      var isWord := if wid < 0 then !HasPrefix(token, args.prefix) else !words[wid].isLabel;
      rows', labels', hashes' := rows + [], labels + [], hashes + [];
      if isWord {
        rows' := AddSubwords(rows, token, wid);
        hashes' := hashes + [AsInt32(h as int)];
      } else if wid >= 0 {
        labels' := labels + [wid - nwords];
      }
    }

    /** `getLine` for a supervised model: rows and labels of the tokens up to the end of the sentence. */
    method GetLine(tokens: seq<Bytes>) returns (rows: seq<int>, labels: seq<int>, count: nat)
      requires Valid() && ArgsOk(args)
      ensures rows == LineRows(AsView(), tokens) && labels == LineLabels(AsView(), tokens) && count == |Line(tokens)|
    {
      hide Indexes, Distinct, TokenRows, TokenLabels, TokenHashes, PushAll, WordNgramIds, ArgsOk;
      ArgsAreSizes(args);
      ghost var v := AsView();
      var hashes: seq<int> := [];
      rows, labels, count := [], [], 0;
      var ended := false;
      while count < |tokens| && !ended
        invariant count <= |tokens|
        invariant rows == RowsOf(v, tokens[..count]) && labels == LabelsOf(v, tokens[..count]) &&
          hashes == HashesOf(v, tokens[..count])
        invariant forall k :: 0 <= k < count ==> tokens[k] == EOS ==> ended && k == count - 1
        invariant ended ==> count > 0 && tokens[count - 1] == EOS
        decreases |tokens| - count, !ended
      {
        var token := tokens[count];
        assert tokens[..count + 1][..count] == tokens[..count];
        rows, labels, hashes := AddToken(token, rows, labels, hashes);
        count := count + 1;
        if token == EOS { ended := true; }
      }
      LineIs(tokens, count);
      rows := AddWordNgrams(rows, hashes);
    }

    // ---- pruning ----

    /** `prune`: the given rows are kept, the words among them in order, and renumbered. */
    method Prune(idx: seq<int>) returns (idx': seq<int>)
      requires Valid() && Unpruned(AsView()) && pruned == map[] && nwords + nlabels == |words|
      requires AllDistinct(idx) && forall i :: 0 <= i < |idx| ==> 0 <= idx[i]
      modifies `words, `size, `nwords, `pruneSize, `pruned, word2int
      ensures Valid() && nwords + nlabels == |words|
      ensures multiset(idx') == multiset(idx)
      ensures nwords <= |idx'| && IsPruned(old(AsView()), idx'[..nwords], idx'[nwords..], AsView())
    {
      hide Indexes, Distinct, Unpruned, IsPruned, SubwordsOk, AllDistinct, Increasing, Renumbered, WordsFirst, ArgsOk,
        Moved;
      ghost var v := AsView();
      UnprunedFacts(v);
      var unsorted, grams := SplitRows(idx, nwords);
      var kept := SortRows(unsorted);
      StillRows(unsorted, kept, nwords);
      idx' := kept + grams;
      RowsSplit(kept, grams, idx);
      RenumberGrams(grams);
      ClearIndex();
      EmptyIndex(word2int[..], words);
      Compact(kept, v);
      ghost var compacted := words;
      nwords := |kept|;
      size := nwords + nlabels;
      words := words[..size];
      Truncated(word2int[..], compacted, words, size);
      ghost var unmarked := words;
      InitNgrams();
      SameWords(word2int[..], unmarked, words);
      PrunedIs(v, kept, grams, compacted, AsView());
      assert idx'[..nwords] == kept && idx'[nwords..] == grams;
    }

    /** `pruneidx_`: the kept n-grams in the order given. */
    method RenumberGrams(grams: seq<int>)
      requires pruned == map[] && AllDistinct(grams)
      modifies `pruned, `pruneSize
      ensures pruneSize == |grams| && Renumbered(pruned, grams, nwords)
    {
      hide Renumbered, AllDistinct;
      NoneRenumbered(grams, nwords);
      var j := 0;
      while j < |grams|
        invariant 0 <= j <= |grams| && |pruned| == j && Renumbered(pruned, grams[..j], nwords)
      {
        RenumberOne(pruned, grams, j, nwords);
        pruned := pruned[grams[j] - nwords := j];
        j := j + 1;
      }
      assert grams[..|grams|] == grams;
      pruneSize := |pruned|;
    }

    /** The compaction loop: kept words, then all labels, moved down in place and indexed. */
    method Compact(kept: seq<int>, ghost v: View)
      requires words == v.words && nwords == v.nwords && nwords + nlabels == |words| < word2int.Length &&
        Indexes(word2int[..], words, 0)
      requires Distinct(v.words) && WordsFirst(v.words, v.nwords)
      requires Increasing(kept) && forall i :: 0 <= i < |kept| ==> 0 <= kept[i] < nwords
      modifies `words, word2int
      ensures |words| == |v.words| && |kept| + nlabels <= |words| && Indexes(word2int[..], words, |kept| + nlabels)
      ensures Moved(v.words, words, kept, v.nwords, |v.words|, |kept| + nlabels)
      ensures Distinct(words[..|kept| + nlabels]) && word2int == old(word2int)
    {
      hide Indexes, Distinct;
      var j := 0;
      for i := 0 to |words|
        invariant |words| == |v.words| && word2int == old(word2int) && j <= i && Indexes(word2int[..], words, j)
        invariant CompactedTo(kept, v.nwords, i, j) && Moved(v.words, words, kept, v.nwords, i, j)
      {
        CompactStep(kept, v.nwords, i, j);
        LabelsLast(v, words, i);
        if words[i].isLabel || (j < |kept| && kept[j] == i) {
          ghost var before := words;
          words := words[j := words[i]];
          MovedStep(v.words, before, words, kept, v.nwords, i, j);
          IndexesSame(word2int[..], before, words, j);
          IndexEntry(j);
          j := j + 1;
        }
      }
      CompactEnd(kept, v, words, j);
    }

    // ---- loading ----

    /** `load`, once the entries have been read: the table is rebuilt with room to spare.  An empty dictionary gets a
        table without a single slot. */
    method Load(es: seq<Entry>, nw: nat, nl: nat, nt: nat, ps: int, pi: map<int, int>)
      requires Distinct(es) && ArgsOk(args)
      modifies this
      ensures |words| == |es| && (forall i :: 0 <= i < |es| ==> SameEntry(words[i], es[i])) && SubwordsOk(AsView())
      ensures nwords == nw && nlabels == nl && ntokens == nt && pruneSize == ps && pruned == pi
      ensures fresh(word2int) && (Valid() <==> |es| > 0)
    {
      hide Indexes, Distinct, SubwordsOk, ArgsOk;
      words, size, nwords, nlabels, ntokens, pruneSize, pruned := es, |es|, nw, nl, nt, ps, pi;
      InitNgrams();
      ghost var marked := words;
      DistinctSame(es, words);
      var length := (10 * size + 6) / 7;
      var table := new int[length](_ => FREE);
      word2int := table;
      EmptyIndex(word2int[..], words);
      for i := 0 to size
        invariant size == |es| && words == marked && word2int == table && Indexes(word2int[..], words, i)
        invariant nwords == nw && nlabels == nl && ntokens == nt && pruneSize == ps && pruned == pi
      {
        DistinctPrefix(words, i + 1);
        IndexEntry(i);
      }
    }
  }

  lemma OnlyThere(words: seq<Entry>, p: nat)
    requires Distinct(words) && p < |words|
    ensures Position(words, words[p].word) == p
  {
    PositionIs(words, p);
  }

  lemma DistinctPrefix(words: seq<Entry>, n: nat)
    requires Distinct(words) && n <= |words|
    ensures Distinct(words[..n])
  {
  }

  lemma FirstPlace(h: bv32, w: Bytes, m: nat)
    requires h == HashBytes(w) && m > 0
    ensures (h as int) % m == Place(Hash(w), 0, m)
  {
    hide HashBytes;
  }

  lemma InRange(t: seq<int>, words: seq<Entry>, n: nat, p: nat)
    requires Indexes(t, words, n) && p < |t|
    ensures t[p] == FREE || 0 <= t[p] < n
    ensures n <= |words|
  {
    hide Reached;
  }

  /** A word that was not there, with its slot taken in the index. */
  lemma AddNew(t: seq<int>, words: seq<Entry>, e: Entry, id: nat, d: nat)
    requires Indexes(t, words, |words|) && Distinct(words) && StopsAt(t, words, e.word, id, d) && t[id] == FREE
    requires forall i :: 0 <= i < |words| ==> words[i].word != e.word
    ensures Indexes(t[id := |words|], words + [e], |words| + 1) && Distinct(words + [e])
  {
    hide Reached, Hash;
    IndexesSame(t, words, words + [e], |words|);
    StopsInMore(t, words, words + [e], e.word, id, d);
    InsertKeeps(t, words + [e], |words|, id, d);
  }

  /** An entry that keeps its word. */
  lemma AddMore(t: seq<int>, words: seq<Entry>, p: nat, e: Entry)
    requires Indexes(t, words, |words|) && Distinct(words) && p < |words| && e.word == words[p].word
    ensures Indexes(t, words[p := e], |words|) && Distinct(words[p := e])
  {
    hide Indexes;
    IndexesSame(t, words, words[p := e], |words|);
  }

  lemma NewWord(words: seq<Entry>, n: nat)
    requires n < |words| && Distinct(words[..n + 1])
    ensures forall i :: 0 <= i < n ==> words[i].word != words[n].word
  {
    forall i | 0 <= i < n ensures words[i].word != words[n].word {
      assert words[..n + 1][i] == words[i] && words[..n + 1][n] == words[n];
    }
  }

  lemma StopsInMore(t: seq<int>, words: seq<Entry>, more: seq<Entry>, w: Bytes, id: nat, d: nat)
    requires StopsAt(t, words, w, id, d) && words <= more
    ensures StopsAt(t, more, w, id, d)
  {
    forall e: nat | e < d ensures PassedOver(t, more, w, e) { assert PassedOver(t, words, w, e); }
  }

  /** Sorting and removing leave exactly the frequent entries, in order, none twice. */
  lemma ThresholdedEntries(es: seq<Entry>, sorted: seq<Entry>, t: int, tl: int)
    requires Distinct(es) && Sorted(sorted) && Distinct(sorted) && multiset(sorted) == multiset(es) && |sorted| == |es|
    ensures var r := KeepFrequent(sorted, t, tl); Sorted(r) && Distinct(r) && |r| <= |es|
    ensures forall e :: e in KeepFrequent(sorted, t, tl) <==> e in es && Frequent(e, t, tl)
    ensures (exists i :: 0 <= i < |es| && !Frequent(es[i], t, tl)) ==> |KeepFrequent(sorted, t, tl)| < |es|
  {
    KeptSorted(sorted, t, tl);
    EntryOrder.KeptDistinct(sorted, t, tl);
    forall e ensures e in KeepFrequent(sorted, t, tl) <==> e in es && Frequent(e, t, tl) {
      KeptAre(sorted, t, tl, e);
      assert e in multiset(sorted) <==> e in multiset(es);
    }
    if i :| 0 <= i < |es| && !Frequent(es[i], t, tl) {
      assert es[i] in multiset(sorted);
      var j :| 0 <= j < |sorted| && sorted[j] == es[i];
      KeptFewer(sorted, t, tl, j);
    }
  }

  // ---- tallies ----

  ghost function Occurrences(tokens: seq<Bytes>, w: Bytes): nat {
    if |tokens| == 0 then 0 else Occurrences(tokens[..|tokens| - 1], w) + if tokens[|tokens| - 1] == w then 1 else 0
  }

  /** No word is counted more often than it occurred; each exactly as often, if none was ever removed. */
  ghost predicate Tally(words: seq<Entry>, tokens: seq<Bytes>, prefix: Bytes, exact: bool) {
    && Distinct(words) && WellTyped(words, prefix)
    && (forall i :: 0 <= i < |words| ==> words[i].count >= 1)
    && (forall w :: CountOf(words, w) <= Occurrences(tokens, w))
    && (exact ==> forall w :: CountOf(words, w) == Occurrences(tokens, w))
  }

  /** What the dictionary holds in the end: with room for all, exactly the words that occur often enough. */
  ghost predicate Tallied(words: seq<Entry>, tokens: seq<Bytes>, prefix: Bytes, minCount: int, minCountLabel: int,
      exact: bool) {
    && (forall i :: 0 <= i < |words| ==> words[i].count >= 1 && Frequent(words[i], minCount, minCountLabel))
    && (forall w :: CountOf(words, w) <= Occurrences(tokens, w))
    && (exact ==> forall w :: CountOf(words, w) == FinalCount(tokens, w, prefix, minCount, minCountLabel))
  }

  ghost function FinalCount(tokens: seq<Bytes>, w: Bytes, prefix: Bytes, minCount: int, minCountLabel: int): int {
    if Occurrences(tokens, w) >= (if HasPrefix(w, prefix) then minCountLabel else minCount) then Occurrences(tokens, w)
      else 0
  }

  /** One more occurrence of `w`, and of nothing else. */
  ghost predicate Added(before: seq<Entry>, after: seq<Entry>, w: Bytes, prefix: Bytes) {
    var p := Position(before, w);
    after == if p < 0 then before + [Entry(w, 1, HasPrefix(w, prefix), [])]
      else before[p := before[p].(count := before[p].count + 1)]
  }

  ghost predicate Thresholded(before: seq<Entry>, after: seq<Entry>, t: int, tl: int) {
    forall e :: e in after <==> e in before && Frequent(e, t, tl)
  }

  ghost function Seen(tokens: seq<Bytes>): set<Bytes> {
    set w | w in tokens
  }

  lemma {:induction false} Occurs(tokens: seq<Bytes>, w: Bytes)
    requires Occurrences(tokens, w) > 0
    ensures w in tokens
  {
    if tokens[|tokens| - 1] != w { Occurs(tokens[..|tokens| - 1], w); }
  }

  lemma {:induction false} DistinctWords(words: seq<Entry>, all: set<Bytes>)
    requires Distinct(words) && forall i :: 0 <= i < |words| ==> words[i].word in all
    ensures |words| <= |all|
  {
    if |words| > 0 {
      var w := words[|words| - 1].word;
      DistinctWords(words[..|words| - 1], all - {w});
    }
  }

  /** There are no more entries than different tokens. */
  lemma WordsSeen(words: seq<Entry>, tokens: seq<Bytes>, n: nat, prefix: Bytes, exact: bool)
    requires n <= |tokens| && Tally(words, tokens[..n], prefix, exact)
    ensures |words| <= |Seen(tokens)|
  {
    forall i | 0 <= i < |words| ensures words[i].word in Seen(tokens) {
      PositionIs(words, i);
      assert CountOf(words, words[i].word) <= Occurrences(tokens[..n], words[i].word);
      Occurs(tokens[..n], words[i].word);
    }
    DistinctWords(words, Seen(tokens));
  }

  lemma NothingTallied(tokens: seq<Bytes>, prefix: Bytes, exact: bool)
    ensures Tally([], tokens[..0], prefix, exact)
  {
  }

  lemma NewWordCounts(before: seq<Entry>, e: Entry, x: Bytes)
    requires Distinct(before + [e]) && Position(before, e.word) < 0
    ensures CountOf(before + [e], x) == CountOf(before, x) + if x == e.word then e.count else 0
  {
    var p, q := Position(before, x), Position(before + [e], x);
    assert (before + [e])[..|before|] == before;
  }

  lemma OldWordCounts(before: seq<Entry>, p: nat, e: Entry, x: Bytes)
    requires Distinct(before) && p < |before| && e.word == before[p].word
    ensures CountOf(before[p := e], x) == CountOf(before, x) + if x == e.word then e.count - before[p].count else 0
  {
    var after := before[p := e];
    if Position(before, x) >= 0 {
      assert after[Position(before, x)].word == x;
      PositionIs(after, Position(before, x));
    }
    if Position(after, x) >= 0 {
      assert before[Position(after, x)].word == x;
      PositionIs(before, Position(after, x));
    }
  }

  lemma AddedCounts(before: seq<Entry>, after: seq<Entry>, w: Bytes, prefix: Bytes, x: Bytes)
    requires Distinct(before) && Distinct(after) && Added(before, after, w, prefix)
    ensures CountOf(after, x) == CountOf(before, x) + if x == w then 1 else 0
  {
    hide Distinct, CountOf;
    var p := Position(before, w);
    if p < 0 {
      NewWordCounts(before, Entry(w, 1, HasPrefix(w, prefix), []), x);
    } else {
      OldWordCounts(before, p, before[p].(count := before[p].count + 1), x);
    }
  }

  lemma TallyOneMore(before: seq<Entry>, words: seq<Entry>, tokens: seq<Bytes>, i: nat, prefix: Bytes, exact: bool)
    requires i < |tokens| && Tally(before, tokens[..i], prefix, exact) && Distinct(words) &&
      Added(before, words, tokens[i], prefix)
    ensures Tally(words, tokens[..i + 1], prefix, exact) && |before| <= |words| <= |before| + 1
    ensures |words| > |before| ==> words[|words| - 1].count == 1
  {
    hide Added, Distinct, CountOf, WellTyped, Occurrences;
    AddedTypes(before, words, tokens[i], prefix);
    forall w ensures CountOf(words, w) - CountOf(before, w) ==
      Occurrences(tokens[..i + 1], w) - Occurrences(tokens[..i], w) {
      AddedCounts(before, words, tokens[i], prefix, w);
      OneTokenMore(tokens, i, w);
    }
  }

  lemma OneTokenMore(tokens: seq<Bytes>, i: nat, w: Bytes)
    requires i < |tokens|
    ensures Occurrences(tokens[..i + 1], w) == Occurrences(tokens[..i], w) + if w == tokens[i] then 1 else 0
  {
    assert tokens[..i + 1][..i] == tokens[..i];
  }

  lemma AddedTypes(before: seq<Entry>, after: seq<Entry>, w: Bytes, prefix: Bytes)
    requires WellTyped(before, prefix) && Added(before, after, w, prefix) && forall i :: 0 <= i < |before| ==>
      before[i].count >= 1
    ensures WellTyped(after, prefix) && (forall i :: 0 <= i < |after| ==> after[i].count >= 1)
    ensures |before| <= |after| <= |before| + 1 && (|after| > |before| ==> after[|after| - 1].count == 1)
  {
  }

  lemma FreshIsRare(words: seq<Entry>, t: int)
    requires |words| > 0 && words[|words| - 1].count == 1 && t >= 2
    ensures exists i :: 0 <= i < |words| && !Frequent(words[i], t, t)
  {
    assert !Frequent(words[|words| - 1], t, t);
  }

  lemma ThresholdedTypes(before: seq<Entry>, after: seq<Entry>, t: int, tl: int, prefix: Bytes)
    requires WellTyped(before, prefix) && Thresholded(before, after, t, tl) && forall i :: 0 <= i < |before| ==>
      before[i].count >= 1
    ensures WellTyped(after, prefix) && forall i :: 0 <= i < |after| ==>
      after[i].count >= 1 && Frequent(after[i], t, tl)
  {
    forall i | 0 <= i < |after| ensures (after[i].isLabel <==> HasPrefix(after[i].word, prefix)) &&
      after[i].count >= 1 && Frequent(after[i], t, tl) {
      assert after[i] in after;
      var j :| 0 <= j < |before| && before[j] == after[i];
    }
  }

  lemma TallyFewer(before: seq<Entry>, words: seq<Entry>, tokens: seq<Bytes>, prefix: Bytes, t: int)
    requires Tally(before, tokens, prefix, false) && Distinct(words) && Thresholded(before, words, t, t)
    ensures Tally(words, tokens, prefix, false)
  {
    ThresholdedTypes(before, words, t, t, prefix);
    forall w ensures CountOf(words, w) <= Occurrences(tokens, w) {
      ThresholdCounts(before, words, t, t, w);
      assert CountOf(before, w) <= Occurrences(tokens, w);
    }
  }

  lemma TallyFinal(before: seq<Entry>, words: seq<Entry>, tokens: seq<Bytes>, prefix: Bytes, minCount: int,
      minCountLabel: int, exact: bool)
    requires Tally(before, tokens, prefix, exact) && Distinct(words) &&
      Thresholded(before, words, minCount, minCountLabel)
    ensures Tallied(words, tokens, prefix, minCount, minCountLabel, exact) && WellTyped(words, prefix)
  {
    ThresholdedTypes(before, words, minCount, minCountLabel, prefix);
    forall w ensures CountOf(words, w) <= Occurrences(tokens, w) &&
      (exact ==> CountOf(words, w) == FinalCount(tokens, w, prefix, minCount, minCountLabel)) {
      ThresholdCounts(before, words, minCount, minCountLabel, w);
      assert CountOf(before, w) <= Occurrences(tokens, w);
      var p := Position(before, w);
      if p >= 0 { assert before[p].isLabel <==> HasPrefix(before[p].word, prefix); }
    }
  }

  /** Subwords do not matter for anything but rows. */
  lemma TalliedSame(before: seq<Entry>, words: seq<Entry>, tokens: seq<Bytes>, prefix: Bytes, minCount: int,
      minCountLabel: int, exact: bool, n: nat)
    requires Tallied(before, tokens, prefix, minCount, minCountLabel, exact) && WellTyped(before, prefix) &&
      Sorted(before) && WordsFirst(before, n)
    requires Distinct(before) && Distinct(words) && |words| == |before| && forall i :: 0 <= i < |words| ==>
      SameEntry(words[i], before[i])
    ensures Tallied(words, tokens, prefix, minCount, minCountLabel, exact) && WellTyped(words, prefix) &&
      Sorted(words) && WordsFirst(words, n)
  {
    forall w ensures CountOf(words, w) == CountOf(before, w) {
      if Position(words, w) >= 0 { PositionIs(before, Position(words, w)); }
      if Position(before, w) >= 0 { PositionIs(words, Position(before, w)); }
    }
    forall i, j | 0 <= i < j < |words| ensures !Before(words[j], words[i]) { assert !Before(before[j], before[i]); }
    hide CountOf, Distinct, FinalCount;
  }

  // ---- rows of subwords ----

  lemma ArgsAreSizes(a: Args)
    requires ArgsOk(a)
    ensures Sizes(a)
  {
  }

  lemma BucketOfHash(a: Args, g: Bytes, h: bv32)
    requires ArgsOk(a) && a.maxn != 0 && h == HashBytes(g)
    ensures a.bucket > 0 && (h as int) % a.bucket == Bucket(a, Hash(g))
  {
    hide HashBytes;
  }

  lemma PushOneMore(v: View, a: Args, grams: seq<Bytes>, g: Bytes)
    ensures PushAll(v, HashIds(a, grams + [g])) == PushAll(v, HashIds(a, grams)) +
      Vocabulary.PushHash(v, Bucket(a, Hash(g)))
  {
    hide Hash, Bucket, Vocabulary.PushHash;
    assert (grams + [g])[..|grams|] == grams;
    var ids := HashIds(a, grams);
    assert (ids + [Bucket(a, Hash(g))])[..|ids|] == ids;
  }

  lemma NothingToPush(v: View, a: Args)
    ensures PushAll(v, HashIds(a, [])) == []
  {
  }

  lemma {:induction false} PushJoins(v: View, a: Args, x: seq<Bytes>, y: seq<Bytes>)
    ensures PushAll(v, HashIds(a, x + y)) == PushAll(v, HashIds(a, x)) + PushAll(v, HashIds(a, y))
  {
    hide PushAll, HashIds, Vocabulary.PushHash, Bucket;
    if |y| == 0 {
      assert x + y == x && y == [];
      NothingToPush(v, a);
    } else {
      var front, last := y[..|y| - 1], y[|y| - 1];
      PushJoins(v, a, x, front);
      PushOneMore(v, a, x + front, last);
      PushOneMore(v, a, front, last);
      assert x + front + [last] == x + y && front + [last] == y;
    }
  }

  lemma NgramsStep(a: Args, w: Bytes, i: nat, j: nat, n: nat, done: seq<Bytes>)
    requires Sizes(a) && i <= j < |w| && n <= AsSize(a.maxn)
    ensures var k := Boundary(w, j + 1);
      done + NgramsFrom(a, w, i, j, n) == (if Subwords.Counts(a, w, i, k, n) then done + [w[i..k]] else done) +
      NgramsFrom(a, w, i, k, n + 1)
  {
  }

  lemma NgramsEnd(a: Args, w: Bytes, i: nat, j: nat, n: nat)
    requires Sizes(a) && i <= j <= |w| && (j == |w| || n > AsSize(a.maxn))
    ensures NgramsFrom(a, w, i, j, n) == []
  {
  }

  ghost predicate Marked(v: View, words: seq<Entry>, n: nat)
    requires Sizes(v.args)
  {
    n <= |words| && forall k :: 0 <= k < n ==> words[k].subwords == [k] + PushAll(v, SubwordIds(v.args, words[k].word))
  }

  lemma NothingPushed(v: View)
    requires Sizes(v.args)
    ensures PushAll(v, SubwordIds(v.args, EOS)) == []
  {
  }

  lemma MarkedAll(v: View, v': View)
    requires Sizes(v.args) && v'.args == v.args && v'.nwords == v.nwords && v'.pruneSize == v.pruneSize &&
      v'.pruned == v.pruned
    requires Marked(v, v'.words, |v'.words|)
    ensures SubwordsOk(v')
  {
    hide SubwordIds;
    forall k | 0 <= k < |v'.words| ensures v'.words[k].subwords ==
      [k] + PushAll(v', SubwordIds(v.args, v'.words[k].word)) {
      PushAllSame(v, v', SubwordIds(v.args, v'.words[k].word));
    }
  }

  lemma SameWords(t: seq<int>, before: seq<Entry>, words: seq<Entry>)
    requires Indexes(t, before, |before|) && Distinct(before) && |words| == |before| &&
      forall k :: 0 <= k < |words| ==> SameEntry(words[k], before[k])
    ensures Indexes(t, words, |words|) && Distinct(words)
  {
    IndexesSame(t, before, words, |before|);
  }

  // ---- lines ----

  lemma NoIds(v: View)
    ensures PushAll(v, []) == []
  {
  }

  lemma PushOneId(v: View, ids: seq<int>, id: int)
    ensures PushAll(v, ids + [id]) == PushAll(v, ids) + Vocabulary.PushHash(v, id)
  {
    assert (ids + [id])[..|ids|] == ids;
  }

  lemma {:induction false} PushIdsJoin(v: View, x: seq<int>, y: seq<int>)
    ensures PushAll(v, x + y) == PushAll(v, x) + PushAll(v, y)
  {
    hide PushAll, Vocabulary.PushHash;
    NoIds(v);
    if |y| == 0 {
      assert x + y == x && y == [];
    } else {
      var front, last := y[..|y| - 1], y[|y| - 1];
      PushIdsJoin(v, x, front);
      PushOneId(v, x + front, last);
      PushOneId(v, front, last);
      assert x + front + [last] == x + y && front + [last] == y;
    }
  }

  lemma OneRunMore(a: Args, hashes: seq<int>, h: nat, j: nat, limit: int, done: seq<int>)
    requires ArgsOk(a) && j < |hashes| && j < limit && limit <= j - 1 + a.wordNgrams
    ensures a.bucket > 0
    ensures var g := Extend(h, hashes[j]);
      done + NgramsOfWords(a, hashes, h, j, limit) == done + [g % a.bucket] + NgramsOfWords(a, hashes, g, j + 1, limit)
  {
    hide Extend;
  }

  lemma NoRunMore(a: Args, hashes: seq<int>, h: nat, j: nat, limit: int)
    requires j >= |hashes| || j >= limit
    ensures NgramsOfWords(a, hashes, h, j, limit) == []
  {
  }

  lemma TokenIs(v: View, token: Bytes)
    requires Sizes(v.args)
    ensures var p := Position(v.words, token);
      var isWord := if p < 0 then !HasPrefix(token, v.args.prefix) else !v.words[p].isLabel;
      && TokenRows(v, token) == (if isWord then WordRows(v, token) else [])
      && TokenLabels(v, token) == (if !isWord && p >= 0 then [p - v.nwords] else [])
      && TokenHashes(v, token) == (if isWord then [AsInt32(Hash(token))] else [])
  {
    hide WordRows, Hash, HasPrefix, AsInt32;
  }

  lemma HashOf(token: Bytes, h: bv32)
    requires h == HashBytes(token)
    ensures h as int == Hash(token)
  {
    hide HashBytes;
  }

  /** A line is its tokens up to the first end of sentence. */
  lemma {:induction false} LineIs(tokens: seq<Bytes>, n: nat)
    requires n <= |tokens| && forall k :: 0 <= k < n - 1 ==> tokens[k] != EOS
    requires n == |tokens| || (n > 0 && tokens[n - 1] == EOS)
    ensures Line(tokens) == tokens[..n]
  {
    if |tokens| > 0 {
      if tokens[0] == EOS {
        assert n == 1;
        assert tokens[..1] == [tokens[0]];
      } else {
        LineIs(tokens[1..], n - 1);
        assert tokens[..n] == [tokens[0]] + tokens[1..][..n - 1];
      }
    }
  }

  // ---- pruning ----

  ghost predicate Increasing(xs: seq<int>) {
    forall i, j :: 0 <= i < j < |xs| ==> xs[i] < xs[j]
  }

  lemma UnprunedFacts(v: View)
    requires Unpruned(v)
    ensures Distinct(v.words) && WordsFirst(v.words, v.nwords) && ArgsOk(v.args) && v.nwords <= |v.words|
  {
  }

  /** Words to the left, n-gram rows to the right, each in the order given. */
  method SplitRows(idx: seq<int>, nwords: nat) returns (ws: seq<int>, grams: seq<int>)
    requires AllDistinct(idx) && forall i :: 0 <= i < |idx| ==> 0 <= idx[i]
    ensures multiset(ws) + multiset(grams) == multiset(idx) && AllDistinct(ws) && AllDistinct(grams)
    ensures forall i :: 0 <= i < |ws| ==> 0 <= ws[i] < nwords
    ensures forall i :: 0 <= i < |grams| ==> nwords <= grams[i]
  {
    hide AllDistinct, Splits;
    ws, grams := [], [];
    NoneTwice(idx);
    for i := 0 to |idx|
      invariant Splits(ws, grams, idx[..i]) && AllDistinct(ws) && AllDistinct(grams)
      invariant forall k :: 0 <= k < |ws| ==> 0 <= ws[k] < nwords
      invariant forall k :: 0 <= k < |grams| ==> nwords <= grams[k]
    {
      SplitIsNew(idx, i, ws, grams);
      SplitsOneMore(idx, i, ws, grams);
      if idx[i] < nwords {
        OneRowMore(ws, idx[i]);
        ws := ws + [idx[i]];
      } else {
        OneRowMore(grams, idx[i]);
        grams := grams + [idx[i]];
      }
    }
    SplitsAll(ws, grams, idx);
  }

  ghost predicate Splits(ws: seq<int>, grams: seq<int>, rows: seq<int>) {
    multiset(ws) + multiset(grams) == multiset(rows)
  }

  lemma NoneTwice(idx: seq<int>)
    ensures AllDistinct([]) && Splits([], [], idx[..0])
  {
  }

  lemma SplitsAll(ws: seq<int>, grams: seq<int>, idx: seq<int>)
    requires Splits(ws, grams, idx[..|idx|])
    ensures multiset(ws) + multiset(grams) == multiset(idx)
  {
    assert idx[..|idx|] == idx;
  }

  lemma SplitsOneMore(idx: seq<int>, i: nat, ws: seq<int>, grams: seq<int>)
    requires i < |idx| && Splits(ws, grams, idx[..i])
    ensures Splits(ws + [idx[i]], grams, idx[..i + 1]) && Splits(ws, grams + [idx[i]], idx[..i + 1])
  {
    assert idx[..i + 1] == idx[..i] + [idx[i]];
  }

  lemma SplitIsNew(idx: seq<int>, i: nat, ws: seq<int>, grams: seq<int>)
    requires AllDistinct(idx) && i < |idx| && Splits(ws, grams, idx[..i])
    ensures idx[i] !in ws && idx[i] !in grams
  {
    hide AllDistinct;
    RowIsNew(idx, i, ws, grams);
  }

  lemma TakeOneRow(xs: seq<int>, i: nat)
    requires i < |xs|
    ensures multiset(xs[..i + 1]) == multiset(xs[..i]) + multiset{xs[i]}
  {
    assert xs[..i + 1] == xs[..i] + [xs[i]];
  }

  lemma OneRowMore(xs: seq<int>, x: int)
    requires AllDistinct(xs) && x !in xs
    ensures AllDistinct(xs + [x])
  {
  }

  lemma RowIsNew(idx: seq<int>, i: nat, ws: seq<int>, grams: seq<int>)
    requires AllDistinct(idx) && i < |idx| && multiset(ws) + multiset(grams) == multiset(idx[..i])
    ensures idx[i] !in ws && idx[i] !in grams
  {
    assert idx[i] !in idx[..i];
    assert idx[i] !in multiset(idx[..i]);
  }

  /** `std::sort` by contract, on distinct rows. */
  method SortRows(xs: seq<int>) returns (r: seq<int>)
    requires AllDistinct(xs)
    ensures Increasing(r) && multiset(r) == multiset(xs) && |r| == |xs|
  {
    hide Increasing, AllDistinct;
    r := [];
    NoneDown();
    for i := 0 to |xs|
      invariant Increasing(r) && multiset(r) == multiset(xs[..i]) && |r| == i
    {
      TakeOneRow(xs, i);
      RowIsNew(xs, i, r, []);
      r := InsertRow(r, xs[i]);
    }
    assert xs[..|xs|] == xs;
  }

  method InsertRow(xs: seq<int>, x: int) returns (r: seq<int>)
    requires Increasing(xs) && x !in xs
    ensures Increasing(r) && multiset(r) == multiset(xs) + multiset{x} && |r| == |xs| + 1
  {
    var k := 0;
    while k < |xs| && xs[k] < x
      invariant 0 <= k <= |xs| && forall j :: 0 <= j < k ==> xs[j] < x
    {
      k := k + 1;
    }
    InsertIncreasing(xs, x, k);
    r := xs[..k] + [x] + xs[k..];
  }

  lemma NoneDown()
    ensures Increasing([])
  {
  }

  lemma InsertIncreasing(r: seq<int>, x: int, k: nat)
    requires Increasing(r) && k <= |r| && x !in r && (forall j :: 0 <= j < k ==> r[j] < x) && (k < |r| ==> x <= r[k])
    ensures Increasing(r[..k] + [x] + r[k..]) && multiset(r[..k] + [x] + r[k..]) == multiset(r) + multiset{x}
  {
    assert r == r[..k] + r[k..];
    assert k < |r| ==> r[k] in r;
  }

  lemma StillRows(before: seq<int>, after: seq<int>, n: nat)
    requires multiset(after) == multiset(before) && forall i :: 0 <= i < |before| ==> 0 <= before[i] < n
    ensures forall i :: 0 <= i < |after| ==> 0 <= after[i] < n
  {
    forall i | 0 <= i < |after| ensures 0 <= after[i] < n {
      assert after[i] in multiset(before);
      var j :| 0 <= j < |before| && before[j] == after[i];
    }
  }

  lemma RowsSplit(kept: seq<int>, grams: seq<int>, idx: seq<int>)
    requires multiset(kept) + multiset(grams) == multiset(idx)
    ensures multiset(kept + grams) == multiset(idx)
  {
  }

  ghost predicate Renumbered(m: map<int, int>, grams: seq<int>, nwords: nat) {
    && (forall id :: id in m <==> nwords + id in grams)
    && (forall id :: id in m ==> m[id] == NewRow(grams, nwords + id))
  }

  lemma NoneRenumbered(grams: seq<int>, nwords: nat)
    ensures Renumbered(map[], grams[..0], nwords)
  {
  }

  lemma RenumberOne(m: map<int, int>, grams: seq<int>, j: nat, nwords: nat)
    requires AllDistinct(grams) && j < |grams| && Renumbered(m, grams[..j], nwords)
    ensures grams[j] - nwords !in m && Renumbered(m[grams[j] - nwords := j], grams[..j + 1], nwords)
  {
    assert grams[..j + 1] == grams[..j] + [grams[j]];
    assert grams[j] !in grams[..j];
    assert grams[..j + 1][..j] == grams[..j];
  }

  /** The entry that ends up at `k`. */
  function Source(kept: seq<int>, nwords: nat, k: nat): int {
    if k < |kept| then kept[k] else k - |kept| + nwords
  }

  /** After looking at `i` entries, `j` of them are kept. */
  ghost predicate CompactedTo(kept: seq<int>, nwords: nat, i: nat, j: nat) {
    if i <= nwords then j <= |kept| && (forall m :: 0 <= m < j ==> kept[m] < i) && (j == |kept| || i <= kept[j])
    else j == |kept| + (i - nwords)
  }

  lemma CompactStep(kept: seq<int>, nwords: nat, i: nat, j: nat)
    requires CompactedTo(kept, nwords, i, j) && Increasing(kept) && forall m :: 0 <= m < |kept| ==>
      0 <= kept[m] < nwords
    ensures i >= nwords || (j < |kept| && kept[j] == i) ==>
      CompactedTo(kept, nwords, i + 1, j + 1) && Source(kept, nwords, j) == i
    ensures !(i >= nwords || (j < |kept| && kept[j] == i)) ==> CompactedTo(kept, nwords, i + 1, j)
  {
    if i == nwords { NoneLeft(kept, nwords, j); }
  }

  lemma NoneLeft(kept: seq<int>, nwords: nat, j: nat)
    requires CompactedTo(kept, nwords, nwords, j) && forall m :: 0 <= m < |kept| ==> 0 <= kept[m] < nwords
    ensures j == |kept|
  {
  }

  ghost predicate Moved(w0: seq<Entry>, words: seq<Entry>, kept: seq<int>, nwords: nat, i: nat, j: nat) {
    && |words| == |w0| && j <= i <= |w0|
    && (forall k :: i <= k < |w0| ==> words[k] == w0[k])
    && (forall k :: 0 <= k < j ==> 0 <= Source(kept, nwords, k) < i && words[k] == w0[Source(kept, nwords, k)])
  }

  lemma MovedStep(w0: seq<Entry>, before: seq<Entry>, words: seq<Entry>, kept: seq<int>, nwords: nat, i: nat, j: nat)
    requires Moved(w0, before, kept, nwords, i, j) && i < |w0| && words == before[j := before[i]] &&
      Source(kept, nwords, j) == i
    requires Distinct(w0) && Increasing(kept) && forall m :: 0 <= m < |kept| ==> 0 <= kept[m] < nwords
    ensures Moved(w0, words, kept, nwords, i + 1, j + 1) && Distinct(words[..j + 1])
  {
    MovedDistinct(w0, words, kept, nwords, j + 1);
  }

  lemma MovedDistinct(w0: seq<Entry>, words: seq<Entry>, kept: seq<int>, nwords: nat, n: nat)
    requires Distinct(w0) && Increasing(kept) && n <= |words| && forall m :: 0 <= m < |kept| ==> 0 <= kept[m] < nwords
    requires forall k :: 0 <= k < n ==> 0 <= Source(kept, nwords, k) < |w0| && words[k] == w0[Source(kept, nwords, k)]
    ensures Distinct(words[..n])
  {
    forall a, b | 0 <= a < b < n ensures words[..n][a].word != words[..n][b].word {
      assert Source(kept, nwords, a) < Source(kept, nwords, b);
    }
  }

  lemma LabelsLast(v: View, words: seq<Entry>, i: nat)
    requires WordsFirst(v.words, v.nwords) && i < |words| == |v.words| && words[i] == v.words[i]
    ensures words[i].isLabel <==> i >= v.nwords
  {
  }

  lemma CompactEnd(kept: seq<int>, v: View, words: seq<Entry>, j: nat)
    requires v.nwords <= |v.words| && CompactedTo(kept, v.nwords, |v.words|, j) &&
      Moved(v.words, words, kept, v.nwords, |v.words|, j)
    requires Distinct(v.words) && Increasing(kept) && forall m :: 0 <= m < |kept| ==> 0 <= kept[m] < v.nwords
    ensures j == |kept| + (|v.words| - v.nwords) && Distinct(words[..j])
  {
    if v.nwords == |v.words| { NoneLeft(kept, v.nwords, j); }
    MovedDistinct(v.words, words, kept, v.nwords, j);
  }

  lemma Truncated(t: seq<int>, before: seq<Entry>, words: seq<Entry>, n: nat)
    requires Indexes(t, before, n) && n <= |before| && words == before[..n]
    ensures Indexes(t, words, n)
  {
    IndexesSame(t, before, words, n);
  }

  lemma PrunedIs(v: View, kept: seq<int>, grams: seq<int>, compacted: seq<Entry>, v': View)
    requires Increasing(kept) && (forall i :: 0 <= i < |kept| ==> 0 <= kept[i] < v.nwords) && v.nwords <= |v.words|
    requires AllDistinct(grams) && forall i :: 0 <= i < |grams| ==> v.nwords <= grams[i]
    requires v'.args == v.args && v'.nwords == |kept| && |v'.words| == |kept| + (|v.words| - v.nwords)
    requires Moved(v.words, compacted, kept, v.nwords, |v.words|, |v'.words|)
    requires |v'.words| <= |compacted| && forall k :: 0 <= k < |v'.words| ==> SameEntry(v'.words[k], compacted[k])
    requires v'.pruneSize == |grams| && Renumbered(v'.pruned, grams, v.nwords) && SubwordsOk(v')
    ensures IsPruned(v, kept, grams, v')
  {
    hide SubwordsOk;
    forall k | 0 <= k < |kept| ensures SameEntry(v'.words[k], v.words[kept[k]]) {
      assert Source(kept, v.nwords, k) == kept[k];
    }
    forall k | |kept| <= k < |v'.words| ensures SameEntry(v'.words[k], v.words[k - |kept| + v.nwords]) {
      assert Source(kept, v.nwords, k) == k - |kept| + v.nwords;
    }
  }

  lemma DistinctSame(before: seq<Entry>, words: seq<Entry>)
    requires Distinct(before) && |words| == |before| && forall k :: 0 <= k < |words| ==> SameEntry(words[k], before[k])
    ensures Distinct(words)
  {
  }
}
