/** `FastText::selectEmbeddings` and the cutoff of `FastText::quantize`: which rows a pruned model keeps, and that it
    goes on reading the same vectors. */
module Quantization {
  import opened Subwords
  import opened Vocabulary
  import opened Pruning
  import opened Dictionaries

  /** The end-of-sentence row first, then by norm. */
  predicate Ahead(norms: seq<real>, eosid: int, i: int, j: int)
    requires 0 <= i < |norms| && 0 <= j < |norms|
  {
    if i == eosid && j == eosid then false else eosid == i || (eosid != j && norms[i] > norms[j])
  }

  ghost predicate Rows(idx: seq<int>, n: nat) {
    AllDistinct(idx) && forall i :: 0 <= i < |idx| ==> 0 <= idx[i] < n
  }

  ghost predicate InOrder(norms: seq<real>, eosid: int, idx: seq<int>)
    requires forall i :: 0 <= i < |idx| ==> 0 <= idx[i] < |norms|
  {
    forall i, j :: 0 <= i < j < |idx| ==> !Ahead(norms, eosid, idx[j], idx[i])
  }

  lemma InsertInOrder(norms: seq<real>, eosid: int, r: seq<int>, x: int, k: nat)
    requires Rows(r, |norms|) && 0 <= x < |norms| && x !in r && InOrder(norms, eosid, r) && k <= |r|
    requires (forall i :: 0 <= i < k ==> !Ahead(norms, eosid, x, r[i])) && (k < |r| ==> Ahead(norms, eosid, x, r[k]))
    ensures Rows(r[..k] + [x] + r[k..], |norms|) && InOrder(norms, eosid, r[..k] + [x] + r[k..])
  {
    forall i | k <= i < |r| ensures Ahead(norms, eosid, x, r[i]) {
      if i > k { assert !Ahead(norms, eosid, r[i], r[k]); }
    }
  }

  /** `std::iota`, then `std::sort` by contract. */
  method RankRows(norms: seq<real>, eosid: int) returns (r: seq<int>)
    ensures Rows(r, |norms|) && InOrder(norms, eosid, r) && |r| == |norms| && forall x :: 0 <= x < |norms| ==> x in r
  {
    hide InOrder, Rows, Ahead;
    r := [];
    NoRows(norms, eosid);
    for x := 0 to |norms|
      invariant Rows(r, |norms|) && Ranks(r, x, |norms|) && InOrder(norms, eosid, r) && |r| == x
    {
      var k := 0;
      while k < |r| && !Ahead(norms, eosid, x, r[k])
        invariant 0 <= k <= |r| && forall i :: 0 <= i < k ==> !Ahead(norms, eosid, x, r[i])
      {
        k := k + 1;
      }
      InsertInOrder(norms, eosid, r, x, k);
      InsertRanks(r, x, k, |norms|);
      r := r[..k] + [x] + r[k..];
    }
  }

  ghost predicate Ranks(r: seq<int>, n: nat, m: nat) {
    (forall y :: y in r <==> 0 <= y < n) && forall i :: 0 <= i < |r| ==> 0 <= r[i] < m
  }

  lemma InsertRanks(r: seq<int>, x: nat, k: nat, m: nat)
    requires Ranks(r, x, m) && k <= |r| && x < m
    ensures Ranks(r[..k] + [x] + r[k..], x + 1, m)
  {
    assert r == r[..k] + r[k..];
    forall y ensures y in r[..k] + [x] + r[k..] <==> 0 <= y < x + 1 {
      assert y in r <==> y in r[..k] || y in r[k..];
      assert y in r[..k] + [x] + r[k..] <==> y in r[..k] || y == x || y in r[k..];
    }
  }

  lemma NoRows(norms: seq<real>, eosid: int)
    ensures Rows([], |norms|) && InOrder(norms, eosid, [])
  {
  }

  /** The rows kept: the end-of-sentence row, and otherwise none with a smaller norm than one that is dropped. */
  method SelectEmbeddings(norms: seq<real>, eosid: int, cutoff: nat) returns (idx: seq<int>)
    requires 0 < cutoff <= |norms|
    ensures Rows(idx, |norms|) && |idx| == cutoff
    ensures 0 <= eosid < |norms| ==> eosid in idx
    ensures forall i, y :: 0 <= i < |idx| && 0 <= y < |norms| && y !in idx && idx[i] != eosid ==>
      norms[y] <= norms[idx[i]]
  {
    var r := RankRows(norms, eosid);
    idx := r[..cutoff];
    forall i, y | 0 <= i < |idx| && 0 <= y < |norms| && y !in idx && idx[i] != eosid ensures norms[y] <= norms[idx[i]] {
      DroppedLater(norms, eosid, r, cutoff, y);
      var j :| cutoff <= j < |r| && r[j] == y;
      assert !Ahead(norms, eosid, r[j], r[i]);
    }
    if 0 <= eosid < |norms| {
      EosFirst(norms, eosid, r);
      assert idx[0] == eosid;
    }
  }

  lemma EosFirst(norms: seq<real>, eosid: int, r: seq<int>)
    requires Rows(r, |norms|) && InOrder(norms, eosid, r) && eosid in r
    ensures r[0] == eosid
  {
    var j :| 0 <= j < |r| && r[j] == eosid;
    EosAhead(norms, eosid, r[0]);
  }

  lemma EosAhead(norms: seq<real>, eosid: int, i: int)
    requires 0 <= eosid < |norms| && 0 <= i < |norms|
    ensures Ahead(norms, eosid, eosid, i) <==> i != eosid
  {
  }

  lemma DroppedLater(norms: seq<real>, eosid: int, r: seq<int>, cutoff: nat, y: int)
    requires cutoff <= |r| && y in r && y !in r[..cutoff]
    ensures exists j :: cutoff <= j < |r| && r[j] == y
  {
    assert r == r[..cutoff] + r[cutoff..];
    assert y in r[cutoff..];
    var j :| 0 <= j < |r[cutoff..]| && r[cutoff..][j] == y;
    assert r[cutoff + j] == y;
  }

  // ---- the copy ----

  function RowOf(m: array2<real>, i: nat): (r: seq<real>)
    requires i < m.Length0
    reads m
  {
    seq(m.Length1, j requires 0 <= j < m.Length1 reads m => m[i, j])
  }

  /** A matrix as its rows. */
  function Matrix(m: array2<real>): (rs: seq<seq<real>>)
    reads m
    ensures |rs| == m.Length0 && forall i :: 0 <= i < m.Length0 ==> rs[i] == RowOf(m, i)
  {
    seq(m.Length0, i requires 0 <= i < m.Length0 reads m => RowOf(m, i))
  }

  method CopyRows(input: array2<real>, idx: seq<int>) returns (ninput: array2<real>)
    requires forall i :: 0 <= i < |idx| ==> 0 <= idx[i] < input.Length0
    ensures fresh(ninput) && ninput.Length0 == |idx| && ninput.Length1 == input.Length1
    ensures forall i :: 0 <= i < |idx| ==> RowOf(ninput, i) == RowOf(input, idx[i])
  {
    ninput := new real[|idx|, input.Length1];
    for i := 0 to |idx|
      invariant forall p, q :: 0 <= p < i && 0 <= q < input.Length1 ==> ninput[p, q] == input[idx[p], q]
    {
      for j := 0 to input.Length1
        invariant forall p, q :: 0 <= p < i && 0 <= q < input.Length1 ==> ninput[p, q] == input[idx[p], q]
        invariant forall q :: 0 <= q < j ==> ninput[i, q] == input[idx[i], q]
      {
        ninput[i, j] := input[idx[i], j];
      }
    }
  }

  /** A pruned model reads for every line the vectors it read before, except those of the rows that were dropped, and
      gives it the same labels. */
  ghost predicate ReadsTheSame(v: View, m: seq<seq<real>>, v': View, m': seq<seq<real>>, idx: seq<int>) {
    && v'.args == v.args && Sizes(v.args)
    && forall tokens ::
      && Vectors(m', LineRows(v', tokens)) == Vectors(m, KeptRows(idx, v, tokens))
      && LineLabels(v', tokens) == LineLabels(v, tokens)
  }

  /** The rows of a line that are not dropped, under their old numbers. */
  ghost function KeptRows(idx: seq<int>, v: View, tokens: seq<Bytes>): seq<int>
    requires Sizes(v.args)
  {
    Kept(idx, LineRows(v, tokens))
  }

  lemma PruneReadsTheSame(v: View, m: seq<seq<real>>, v': View, m': seq<seq<real>>, idx: seq<int>, n: nat)
    requires Prunable(v) && n <= |idx| && IsPruned(v, idx[..n], idx[n..], v') && forall i :: 0 <= i < |idx| ==>
      0 <= idx[i] < |m|
    requires |m'| == |idx| && forall i :: 0 <= i < |idx| ==> m'[i] == m[idx[i]]
    ensures ReadsTheSame(v, m, v', m', idx)
  {
    hide Prunable, IsPruned, LineRows, LineLabels, Kept, Rename, Vectors;
    assert idx == idx[..n] + idx[n..];
    PrunedSizes(v, idx[..n], idx[n..], v');
    forall tokens ensures Vectors(m', LineRows(v', tokens)) == Vectors(m, KeptRows(idx, v, tokens)) &&
      LineLabels(v', tokens) == LineLabels(v, tokens) {
      PruneKeepsLines(v, idx[..n], idx[n..], v', tokens);
      SameVectors(m, idx, m', LineRows(v, tokens));
    }
  }

  /** The cutoff part of `quantize`. */
  method CutOff(dict: Dictionary, input: array2<real>, norms: seq<real>, cutoff: nat)
      returns (ninput: array2<real>, idx: seq<int>)
    requires dict.Valid() && Prunable(dict.AsView()) && dict.pruned == map[] &&
      dict.nwords + dict.nlabels == |dict.words|
    requires |norms| == input.Length0 && 0 < cutoff < input.Length0
    modifies dict, dict.word2int
    ensures dict.Valid() && |idx| == cutoff && ninput.Length0 == cutoff
    ensures ReadsTheSame(old(dict.AsView()), old(Matrix(input)), dict.AsView(), Matrix(ninput), idx)
  {
    hide Prunable, Unpruned, IsPruned, ReadsTheSame, Rows, RowOf;
    ghost var v, m := dict.AsView(), Matrix(input);
    PrunableIsUnpruned(v);
    var eosid := dict.GetId(EOS);
    var selected := SelectEmbeddings(norms, eosid, cutoff);
    RowsInRange(selected, |norms|);
    idx := dict.Prune(selected);
    SameRange(selected, idx, input.Length0);
    ninput := CopyRows(input, idx);
    PruneReadsTheSame(v, m, dict.AsView(), Matrix(ninput), idx, dict.nwords);
  }

  lemma RowsInRange(idx: seq<int>, n: nat)
    requires Rows(idx, n)
    ensures AllDistinct(idx) && forall i :: 0 <= i < |idx| ==> 0 <= idx[i] < n
  {
  }

  lemma SameRange(a: seq<int>, b: seq<int>, n: nat)
    requires multiset(b) == multiset(a) && forall i :: 0 <= i < |a| ==> 0 <= a[i] < n
    ensures |b| == |a| && forall i :: 0 <= i < |b| ==> 0 <= b[i] < n
  {
    assert |multiset(b)| == |multiset(a)|;
    forall i | 0 <= i < |b| ensures 0 <= b[i] < n {
      assert b[i] in multiset(a);
      var j :| 0 <= j < |a| && a[j] == b[i];
    }
  }
}
