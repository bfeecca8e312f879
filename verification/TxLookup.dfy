/** The transaction lookup index (transaction hash -> block number) and what it
    means for it to describe one chain. */
module TxLookup {
  import opened BlockTree

  type TxHash = nat

  type Bodies = map<Hash, seq<TxHash>>

  type TxIndex = map<TxHash, nat>

  /** The index maps every transaction of the path to the height of its block and
      holds nothing else. */
  ghost predicate TxIndexIs(ix: TxIndex, b: Bodies, p: seq<Hash>) {
    && (forall i :: 0 <= i < |p| ==> p[i] in b)
    && (forall i, t :: 0 <= i < |p| && t in b[p[i]] ==> t in ix && ix[t] == i)
    && (forall t :: t in ix ==> ix[t] < |p| && t in b[p[ix[t]]])
  }

  /** No transaction occurs in two blocks of the path. */
  ghost predicate UniqueTxs(b: Bodies, p: seq<Hash>) {
    forall i, j, t {:trigger t in b[p[i]], t in b[p[j]]} ::
      0 <= i < j < |p| && p[i] in b && p[j] in b && t in b[p[i]] ==> t !in b[p[j]]
  }

  /** Entries written for one block. */
  function BlockEntries(txs: seq<TxHash>, number: nat): TxIndex {
    map t | t in txs :: number
  }

  /** Entries written for the blocks at heights lo..hi of a path, in that order. */
  ghost function Entries(b: Bodies, p: seq<Hash>, lo: nat, hi: nat): TxIndex
    requires hi <= |p| && forall i :: 0 <= i < |p| ==> p[i] in b
    decreases hi, lo, p, b
  {
    if hi <= lo then map[] else Entries(b, p, lo, hi - 1) + BlockEntries(b[p[hi - 1]], hi - 1)
  }

  lemma {:induction false} EntriesMeaning(b: Bodies, p: seq<Hash>, lo: nat, hi: nat)
    requires hi <= |p| && forall i :: 0 <= i < |p| ==> p[i] in b
    ensures forall j, t :: lo <= j < hi && t in b[p[j]] ==> t in Entries(b, p, lo, hi)
    ensures forall t :: t in Entries(b, p, lo, hi) ==>
              var j := Entries(b, p, lo, hi)[t]; lo <= j < hi && t in b[p[j]]
    decreases hi
  {
    if lo < hi {
      EntriesMeaning(b, p, lo, hi - 1);
    }
  }

  /** Members of a that are not in b, in order. */
  function HashDifference(a: seq<TxHash>, b: seq<TxHash>): (r: seq<TxHash>)
    ensures forall t :: t in r <==> t in a && t !in b
  {
    if a == [] then []
    else (if a[0] in b then [] else [a[0]]) + HashDifference(a[1..], b)
  }

  /** The list names exactly the transactions of the entries. */
  ghost predicate Lists(txs: seq<TxHash>, ix: TxIndex) {
    forall t :: t in txs <==> t in ix
  }

  /** The same transactions are met from the top block downwards. */
  lemma {:induction false} EntriesFromTop(b: Bodies, p: seq<Hash>, lo: nat, hi: nat)
    requires lo < hi <= |p| && forall i :: 0 <= i < |p| ==> p[i] in b
    ensures forall t :: t in Entries(b, p, lo, hi) <==> t in Entries(b, p, lo + 1, hi) || t in b[p[lo]]
    decreases hi
  {
    if lo + 1 < hi {
      EntriesFromTop(b, p, lo, hi - 1);
    }
  }

  /** The lookup index after a fork switch: undo the blocks of p above height k, write
      those of q in [k, m), then drop what was undone and not written again. */
  ghost function Reindexed(ix: TxIndex, b: Bodies, p: seq<Hash>, q: seq<Hash>, k: nat, m: nat): TxIndex
    requires forall i :: 0 <= i < |p| ==> p[i] in b
    requires forall i :: 0 <= i < |q| ==> q[i] in b
    requires m <= |q|
  {
    (ix + Entries(b, q, k, m)) - (Entries(b, p, k, |p|).Keys - Entries(b, q, k, m).Keys)
  }

  ghost predicate ForkAt(b: Bodies, p: seq<Hash>, q: seq<Hash>, k: nat, m: nat) {
    && (forall i :: 0 <= i < |p| ==> p[i] in b)
    && (forall i :: 0 <= i < |q| ==> q[i] in b)
    && k <= m <= |q| && k <= |p|
    && (forall i :: 0 <= i < k ==> p[i] == q[i])
  }

  lemma ReindexKeeps(ix: TxIndex, b: Bodies, p: seq<Hash>, q: seq<Hash>, k: nat, m: nat, i: nat, t: TxHash)
    requires ForkAt(b, p, q, k, m) && TxIndexIs(ix, b, p) && UniqueTxs(b, q)
    requires i < m && t in b[q[i]]
    ensures t in Reindexed(ix, b, p, q, k, m) && Reindexed(ix, b, p, q, k, m)[t] == i
  {
    EntriesMeaning(b, q, k, m);
    EntriesMeaning(b, p, k, |p|);
    if i < k {
      assert p[i] == q[i] && ix[t] == i;
    }
  }

  lemma ReindexOnly(ix: TxIndex, b: Bodies, p: seq<Hash>, q: seq<Hash>, k: nat, m: nat, t: TxHash)
    requires ForkAt(b, p, q, k, m) && TxIndexIs(ix, b, p)
    requires t in Reindexed(ix, b, p, q, k, m)
    ensures var n := Reindexed(ix, b, p, q, k, m)[t]; n < m && t in b[q[n]]
  {
    EntriesMeaning(b, q, k, m);
    EntriesMeaning(b, p, k, |p|);
    if t !in Entries(b, q, k, m) {
      assert ix[t] < k;
    }
  }

  /** Reindexing turns the index of p into the index of q's first m blocks, including
      transactions that moved from one fork to the other. */
  lemma ReindexFork(ix: TxIndex, b: Bodies, p: seq<Hash>, q: seq<Hash>, k: nat, m: nat)
    requires ForkAt(b, p, q, k, m) && TxIndexIs(ix, b, p) && UniqueTxs(b, q)
    ensures TxIndexIs(Reindexed(ix, b, p, q, k, m), b, q[..m])
  {
    var r := Reindexed(ix, b, p, q, k, m);
    forall i, t | 0 <= i < m && t in b[q[..m][i]]
      ensures t in r && r[t] == i
    {
      ReindexKeeps(ix, b, p, q, k, m, i, t);
    }
    forall t | t in r
      ensures r[t] < m && t in b[q[..m][r[t]]]
    {
      ReindexOnly(ix, b, p, q, k, m, t);
    }
  }

  /** Writing the entries of the next block extends the index by one height. */
  lemma IndexNext(ix: TxIndex, b: Bodies, p: seq<Hash>, h: Hash)
    requires TxIndexIs(ix, b, p) && h in b && UniqueTxs(b, p + [h])
    ensures TxIndexIs(ix + BlockEntries(b[h], |p|), b, p + [h])
  {
    var q := p + [h];
    var r := ix + BlockEntries(b[h], |p|);
    forall i, t | 0 <= i < |q| && t in b[q[i]]
      ensures t in r && r[t] == i
    {
      if i < |p| {
        assert q[|p|] == h;
        assert t !in b[h];
      }
    }
  }

  /** Writing the entries of the top block again changes nothing. */
  lemma IndexAgain(ix: TxIndex, b: Bodies, p: seq<Hash>)
    requires TxIndexIs(ix, b, p) && |p| > 0
    ensures ix + BlockEntries(b[p[|p| - 1]], |p| - 1) == ix
  {
  }
}
