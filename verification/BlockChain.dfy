/** Canonical-chain maintenance of core/blockchain.go: the number -> hash markers, the
    transaction lookup index and the head markers, as updated by reorg, writeHeadBlock
    and the operations that call them. */
module CanonicalChain {
  import opened Basics
  import opened BlockTree
  import opened TxLookup

  datatype Status = Ok | InvalidOldChain | InvalidNewChain | UnknownAncestor | StateUnrecoverable

  /** Every stored block has the block below it stored too. */
  ghost predicate BodiesClosed(s: Store, b: Bodies, genesis: Hash) {
    && genesis in b
    && b.Keys <= s.Keys
    && forall h {:trigger HasParent(s, h)} :: h in b && HasParent(s, h) ==> s[h].parent in b
  }

  /** The markers are the ancestor path of the header head, the block head lies on that path, and the
      lookup index is that of the block head's chain. */
  ghost predicate Describes(s: Store, b: Bodies, g: Hash, canon: map<nat, Hash>, ix: TxIndex,
                            headerHead: Header, blockHead: Header)
  {
    && Tree(s, g) && BodiesClosed(s, b, g)
    && Has(s, headerHead) && Has(s, blockHead) && blockHead.hash in b
    && Path(s, blockHead.hash) <= Path(s, headerHead.hash)
    && canon == Index(Path(s, headerHead.hash))
    && TxIndexIs(ix, b, Path(s, blockHead.hash))
  }

  lemma {:induction false} PathHasBodies(s: Store, b: Bodies, g: Hash, h: Hash)
    requires Tree(s, g) && BodiesClosed(s, b, g) && h in b
    ensures forall i :: 0 <= i < |Path(s, h)| ==> Path(s, h)[i] in b
    decreases s[h].number
  {
    if HasParent(s, h) {
      PathHasBodies(s, b, g, s[h].parent);
    }
  }

  /** The bodies of the whole path are stored, and chain lists it from the top down to height k. */
  ghost predicate Supplied(b: Bodies, chain: seq<Header>, p: seq<Hash>, k: nat) {
    && (forall i :: 0 <= i < |p| ==> p[i] in b)
    && |chain| + k == |p|
    && (forall i :: 0 <= i < |chain| ==> chain[i].hash == p[|p| - 1 - i])
  }

  ghost predicate Numbered(chain: seq<Header>, top: nat) {
    forall i :: 0 <= i < |chain| ==> chain[i].number + i + 1 == top
  }

  /** Markers for the heights [lo, hi) of a path. */
  function Segment(p: seq<Hash>, lo: nat, hi: nat): map<nat, Hash>
    requires hi <= |p|
  {
    map n: nat | lo <= n < hi :: p[n]
  }

  /** Markers after the blocks of a chain listed from the top, all but its first i, became head one by
      one, deepest first. */
  ghost function CanonAfter(canon: map<nat, Hash>, chain: seq<Header>, i: nat): map<nat, Hash>
    decreases |chain| - i, canon
  {
    if i >= |chain| then canon else CanonAfter(canon, chain, i + 1)[chain[i].number := chain[i].hash]
  }

  /** The bodies of a chain listed from the top, all but its first skip blocks, are stored. */
  ghost predicate Bodied(b: Bodies, chain: seq<Header>, skip: nat) {
    forall i :: skip <= i < |chain| ==> chain[i].hash in b
  }

  ghost function BodyOf(b: Bodies, block: Header): seq<TxHash> {
    if block.hash in b then b[block.hash] else []
  }

  /** The lookup index after the same blocks. */
  ghost function IndexAfter(ix: TxIndex, b: Bodies, chain: seq<Header>, i: nat): TxIndex
    decreases |chain| - i, b, ix
  {
    if i >= |chain| then ix
    else IndexAfter(ix, b, chain, i + 1) + BlockEntries(BodyOf(b, chain[i]), chain[i].number)
  }

  /** The transactions of the same blocks. */
  ghost function TxsAfter(b: Bodies, chain: seq<Header>, i: nat): seq<TxHash>
    decreases |chain| - i, b
  {
    if i >= |chain| then [] else TxsAfter(b, chain, i + 1) + BodyOf(b, chain[i])
  }

  lemma SegmentNext(canon: map<nat, Hash>, q: seq<Hash>, k: nat, w: nat)
    requires k <= w < |q|
    ensures (canon + Segment(q, k, w))[w := q[w]] == canon + Segment(q, k, w + 1)
  {
  }

  lemma MergeNext(ix: TxIndex, e: TxIndex, f: TxIndex, x: TxIndex)
    requires x == ix + e
    ensures x + f == ix + (e + f)
  {
  }

  /** Together the blocks overlay the markers of their heights. */
  lemma {:induction false} CanonAfterSegment(canon: map<nat, Hash>, b: Bodies, chain: seq<Header>,
                                             q: seq<Hash>, k: nat, i: nat)
    requires Supplied(b, chain, q, k) && Numbered(chain, |q|) && i <= |chain|
    ensures CanonAfter(canon, chain, i) == canon + Segment(q, k, |q| - i)
    decreases |chain| - i
  {
    if i == |chain| {
      assert canon + Segment(q, k, k) == canon;
    } else {
      CanonAfterSegment(canon, b, chain, q, k, i + 1);
      SegmentNext(canon, q, k, |q| - i - 1);
    }
  }

  lemma {:induction false} IndexAfterSegment(ix: TxIndex, b: Bodies, chain: seq<Header>, q: seq<Hash>, k: nat, i: nat)
    requires Supplied(b, chain, q, k) && Numbered(chain, |q|) && i <= |chain|
    ensures IndexAfter(ix, b, chain, i) == ix + Entries(b, q, k, |q| - i)
    decreases |chain| - i
  {
    if i == |chain| {
      assert ix + map[] == ix;
    } else {
      IndexAfterSegment(ix, b, chain, q, k, i + 1);
      var w := |q| - i - 1;
      assert chain[i].number == w && BodyOf(b, chain[i]) == b[q[w]];
      MergeNext(ix, Entries(b, q, k, w), BlockEntries(b[q[w]], w), IndexAfter(ix, b, chain, i + 1));
    }
  }

  lemma {:induction false} TxsAfterSegment(b: Bodies, chain: seq<Header>, q: seq<Hash>, k: nat, i: nat)
    requires Supplied(b, chain, q, k) && Numbered(chain, |q|) && i <= |chain|
    ensures Lists(TxsAfter(b, chain, i), Entries(b, q, k, |q| - i))
    decreases |chain| - i
  {
    if i < |chain| {
      TxsAfterSegment(b, chain, q, k, i + 1);
    }
  }

  /** What a reorg from oldHead to newHead relies on: p and q are their ancestor paths, with bodies;
      the markers are a path r that extends p; the lookup index is that of p. */
  ghost predicate Switchable(s: Store, b: Bodies, canon: map<nat, Hash>, ix: TxIndex, g: Hash,
                             oldHead: Header, newHead: Header, p: seq<Hash>, q: seq<Hash>, r: seq<Hash>)
  {
    && Keyed(s) && Lineage(s, g, p, oldHead.hash) && Lineage(s, g, q, newHead.hash)
    && p <= r && (forall i :: 0 <= i < |r| ==> r[i] in s)
    && canon == Index(r)
    && (forall i :: 0 <= i < |q| ==> q[i] in b) && UniqueTxs(b, q)
    && TxIndexIs(ix, b, p)
  }

  /** Deleting up to the first gap leaves exactly the first m heights of the new path, because
      the markers are contiguous. */
  lemma PruneStale(s: Store, canon: map<nat, Hash>, q: seq<Hash>, r: seq<Hash>,
                   k: nat, m: nat, stop: nat, stale: set<nat>)
    requires Keyed(s) && (forall i :: 0 <= i < |q| ==> q[i] in s) && (forall i :: 0 <= i < |r| ==> r[i] in s)
    requires k <= m <= |q| && k <= |r| && q[..k] == r[..k]
    requires canon == Index(r) + Segment(q, k, m)
    requires m <= stop && ReadCanonical(canon, stop) == NO_HASH
    requires forall n :: n in stale <==> m <= n < stop
    ensures canon - stale == Index(q[..m])
  {
    assert stop >= |r|;
    forall n: nat | n < k
      ensures q[n] == r[n]
    {
      assert q[..k][n] == r[..k][n];
    }
  }

  lemma WalkSupplies(s: Store, b: Bodies, g: Hash, p: seq<Hash>, top: Hash, chain: seq<Header>, ancestor: Header)
    requires Lineage(s, g, p, top) && Walked(s, p, chain, ancestor)
    requires forall i :: 0 <= i < |p| ==> p[i] in b
    ensures Supplied(b, chain, p, ancestor.number + 1) && Numbered(chain, |p|)
  {
  }

  /** The same along the path the chain was walked on. */
  lemma BodiedOnPath(s: Store, b: Bodies, p: seq<Hash>, chain: seq<Header>, ancestor: Header, skip: nat)
    requires Walked(s, p, chain, ancestor)
    ensures Bodied(b, chain, skip) <==> forall i :: ancestor.number < i < |p| - skip ==> p[i] in b
  {
    if Bodied(b, chain, skip) {
      forall i | ancestor.number < i < |p| - skip
        ensures p[i] in b
      {
        assert chain[|p| - 1 - i].hash == p[i];
      }
    }
  }

  /** The bodies a switch from path p to path q reads: all blocks it drops, and all it adds below the top. */
  ghost predicate Available(b: Bodies, p: seq<Hash>, q: seq<Hash>, fork: nat) {
    && (forall i :: fork <= i < |p| ==> p[i] in b)
    && (forall i :: fork <= i < |q| - 1 ==> q[i] in b)
  }

  lemma BodiesRead(s: Store, b: Bodies, p: seq<Hash>, q: seq<Hash>, oldChain: seq<Header>, newChain: seq<Header>,
                   ancestor: Header)
    requires Walked(s, p, oldChain, ancestor) && Walked(s, q, newChain, ancestor)
    ensures Available(b, p, q, ancestor.number + 1) <==> Bodied(b, oldChain, 0) && Bodied(b, newChain, 1)
  {
    BodiedOnPath(s, b, p, oldChain, ancestor, 0);
    BodiedOnPath(s, b, q, newChain, ancestor, 1);
  }

  /** The lookup entries the reorg deletes are those of dropped transactions that did not come back. */
  lemma DropsExactly(b: Bodies, p: seq<Hash>, q: seq<Hash>, k: nat, m: nat,
                     deleted: seq<TxHash>, reborn: seq<TxHash>)
    requires ForkAt(b, p, q, k, m)
    requires Lists(deleted, Entries(b, p, k, |p|))
    requires Lists(reborn, Entries(b, q, k, m))
    ensures (set t | t in HashDifference(deleted, reborn))
         == Entries(b, p, k, |p|).Keys - Entries(b, q, k, m).Keys
  {
  }

  lemma IndexDone(b: Bodies, ix0: TxIndex, p: seq<Hash>, q: seq<Hash>, k: nat, m: nat,
                  ix: TxIndex, deleted: seq<TxHash>, reborn: seq<TxHash>)
    requires ForkAt(b, p, q, k, m) && ix == ix0 + Entries(b, q, k, m)
    requires Lists(deleted, Entries(b, p, k, |p|)) && Lists(reborn, Entries(b, q, k, m))
    ensures ix - (set t | t in HashDifference(deleted, reborn)) == Reindexed(ix0, b, p, q, k, m)
  {
    DropsExactly(b, p, q, k, m, deleted, reborn);
  }

  lemma PrefixFork(b: Bodies, p: seq<Hash>, q: seq<Hash>, k: nat, m: nat)
    requires (forall i :: 0 <= i < |p| ==> p[i] in b) && (forall i :: 0 <= i < |q| ==> q[i] in b)
    requires k <= |p| && k <= m <= |q| && p[..k] == q[..k]
    ensures ForkAt(b, p, q, k, m)
  {
    forall i | 0 <= i < k
      ensures p[i] == q[i]
    {
      assert p[..k][i] == q[..k][i];
    }
  }

  /** What one pass of reorg leaves in the markers: applying all of the new chain but its top and
      deleting the markers up to the first gap. */
  lemma MarkersSwitched(s: Store, b: Bodies, g: Hash, canon: map<nat, Hash>, q: seq<Hash>, r: seq<Hash>, top: Hash,
                        newChain: seq<Header>, ancestor: Header, m: nat, stop: nat, stale: set<nat>)
    requires Keyed(s) && Lineage(s, g, q, top) && (forall i :: 0 <= i < |q| ==> q[i] in b)
    requires (forall i :: 0 <= i < |r| ==> r[i] in s)
    requires canon == Index(r) && Walked(s, q, newChain, ancestor)
    requires ancestor.number < |r| && q[..ancestor.number + 1] == r[..ancestor.number + 1]
    requires m == |q| - (if newChain == [] then 0 else 1)
    requires m <= stop && ReadCanonical(CanonAfter(canon, newChain, 1), stop) == NO_HASH
    requires forall n :: n in stale <==> m <= n < stop
    ensures CanonAfter(canon, newChain, 1) - stale == Index(q[..m])
  {
    WalkSupplies(s, b, g, q, top, newChain, ancestor);
    var k := ancestor.number + 1;
    CanonAfterSegment(canon, b, newChain, q, k, |q| - m);
    PruneStale(s, CanonAfter(canon, newChain, 1), q, r, k, m, stop, stale);
  }

  /** What the same pass leaves in the lookup index. */
  lemma LookupSwitched(s: Store, b: Bodies, g: Hash, ix: TxIndex, p: seq<Hash>, q: seq<Hash>, top: Hash,
                       newChain: seq<Header>, ancestor: Header, m: nat, deleted: seq<TxHash>)
    requires Lineage(s, g, q, top) && (forall i :: 0 <= i < |q| ==> q[i] in b) && UniqueTxs(b, q)
    requires TxIndexIs(ix, b, p) && Walked(s, q, newChain, ancestor)
    requires ancestor.number < |p| && p[..ancestor.number + 1] == q[..ancestor.number + 1]
    requires m == |q| - (if newChain == [] then 0 else 1)
    requires Lists(deleted, Entries(b, p, ancestor.number + 1, |p|))
    ensures var dropped := set t | t in HashDifference(deleted, TxsAfter(b, newChain, 1));
            TxIndexIs(IndexAfter(ix, b, newChain, 1) - dropped, b, q[..m])
  {
    WalkSupplies(s, b, g, q, top, newChain, ancestor);
    var k := ancestor.number + 1;
    IndexAfterSegment(ix, b, newChain, q, k, |q| - m);
    TxsAfterSegment(b, newChain, q, k, |q| - m);
    PrefixFork(b, p, q, k, m);
    IndexDone(b, ix, p, q, k, m, IndexAfter(ix, b, newChain, 1), deleted, TxsAfter(b, newChain, 1));
    ReindexFork(ix, b, p, q, k, m);
  }

  /** Path facts shared by every switch from a consistent chain. */
  lemma SwitchFacts(s: Store, b: Bodies, g: Hash, current: Header, header: Header, block: Header)
    requires Tree(s, g) && BodiesClosed(s, b, g)
    requires Has(s, current) && current.hash in b && Has(s, header) && Has(s, block) && block.hash in b
    ensures Lineage(s, g, Path(s, current.hash), current.hash)
    ensures Lineage(s, g, Path(s, block.hash), block.hash)
    ensures Lineage(s, g, Path(s, header.hash), header.hash)
    ensures |Path(s, block.hash)| == block.number + 1
    ensures forall i :: 0 <= i < |Path(s, block.hash)| ==> Path(s, block.hash)[i] in b
    ensures block.parent == current.hash ==> Path(s, block.hash) == Path(s, current.hash) + [block.hash]
  {
    PathLineage(s, g, current.hash);
    PathLineage(s, g, block.hash);
    PathLineage(s, g, header.hash);
    PathHasBodies(s, b, g, block.hash);
  }

  lemma MarkTop(q: seq<Hash>, m: nat)
    requires |q| > 0 && |q| - 1 <= m <= |q|
    ensures Index(q[..m])[|q| - 1 := q[|q| - 1]] == Index(q)
  {
  }

  /** Writing the head on top of what reorg left gives the full index of the new path. */
  lemma HeadOnTop(ix: TxIndex, b: Bodies, q: seq<Hash>, m: nat)
    requires |q| > 0 && |q| - 1 <= m <= |q| && TxIndexIs(ix, b, q[..m])
    requires (forall i :: 0 <= i < |q| ==> q[i] in b) && UniqueTxs(b, q)
    ensures TxIndexIs(ix + BlockEntries(b[q[|q| - 1]], |q| - 1), b, q)
  {
    var n := |q| - 1;
    if m == n {
      assert q == q[..n] + [q[n]];
      IndexNext(ix, b, q[..n], q[n]);
    } else {
      assert q[..m] == q;
      IndexAgain(ix, b, q);
    }
  }

  /** Marking one block on top of p, under markers r that extend p, gives the path's index exactly
      when r does not reach beyond that block. */
  lemma DirectExtension(p: seq<Hash>, r: seq<Hash>, h: Hash)
    requires p <= r
    ensures Index(r)[|p| := h] == Index(p + [h]) <==> |r| <= |p| + 1
  {
    var m := Index(r)[|p| := h];
    if |r| > |p| + 1 {
      assert |p| + 1 in m && |p| + 1 !in Index(p + [h]);
    } else {
      forall n | n in m
        ensures n in Index(p + [h]) && m[n] == Index(p + [h])[n]
      {
      }
    }
  }

  /** Headers 1, 2 and 3 in a row, block 9 next to 2, and only the bodies of 1 and 9. */
  function StaleStore(): Store {
    map[1 := Header(1, NO_HASH, 0, 0, 0), 2 := Header(2, 1, 1, 0, 0), 3 := Header(3, 2, 2, 0, 0),
        9 := Header(9, 1, 1, 0, 0)]
  }

  /** With header head 3 above block head 1, making block 9 the head leaves the marker of header 3 behind. */
  lemma StaleMarkerExample()
    ensures var s, b := StaleStore(), map[1 := [], 9 := []];
            && Describes(s, b, 1, Index(Path(s, 3)), map[], s[3], s[1]) && s[9].parent == 1
            && Index(Path(s, 3))[s[9].number := 9] != Index(Path(s, 9))
  {
    var s := StaleStore();
    assert HasParent(s, 2) && HasParent(s, 3) && HasParent(s, 9);
    assert Path(s, 1) == [1] && Path(s, 9) == [1, 9] && Path(s, 2) == [1, 2] && Path(s, 3) == [1, 2, 3];
    assert 2 in Index([1, 2, 3])[1 := 9] && 2 !in Index([1, 9]);
  }

  /** Switching from block 2 to block 4 over block 3, whose body is missing, ends with the lock held. */
  lemma MissingBodyExample()
    ensures var s := map[1 := Header(1, NO_HASH, 0, 0, 0), 2 := Header(2, 1, 1, 0, 0),
                         3 := Header(3, 1, 1, 0, 0), 4 := Header(4, 3, 2, 0, 0)];
            && Keyed(s) && Lineage(s, 1, [1, 2], 2) && Lineage(s, 1, [1, 3, 4], 4)
            && SplitAt([1, 2], [1, 3, 4], 1) && !Available(map[1 := [], 2 := [], 4 := []], [1, 2], [1, 3, 4], 1)
  {
    assert [1, 2][..1] == [1, 3, 4][..1];
    assert [1, 3, 4][1] == 3;
  }

  /** An executed block that may be stored: hashes identify content, its parent was executed, and its
      transactions are not already on the chain below it. */
  ghost predicate Fits(s: Store, b: Bodies, block: Header, txs: seq<TxHash>) {
    && block.hash != NO_HASH && block.number < MAX_U64
    && (block.hash in s ==> s[block.hash] == block)
    && (block.hash in b ==> b[block.hash] == txs)
    && (GetHeader(s, block.parent, Pred(block.number)).Some? ==>
          && block.parent in b
          && UniqueTxs(b[block.hash := txs], Path(s[block.hash := block], block.hash)))
  }

  lemma BodiesGrow(s: Store, b: Bodies, g: Hash, block: Header, txs: seq<TxHash>)
    requires Tree(s, g) && BodiesClosed(s, b, g) && block.parent in b
    requires block.hash in s ==> s[block.hash] == block
    ensures BodiesClosed(s[block.hash := block], b[block.hash := txs], g)
  {
    var s', b' := s[block.hash := block], b[block.hash := txs];
    forall h | h in b' && HasParent(s', h)
      ensures s'[h].parent in b'
    {
      if h in b {
        assert HasParent(s, h);
      }
    }
  }

  lemma SameBodies(ix: TxIndex, b: Bodies, ub: Bodies, p: seq<Hash>)
    requires TxIndexIs(ix, b, p) && forall i :: 0 <= i < |p| ==> p[i] in ub && b[p[i]] == ub[p[i]]
    ensures TxIndexIs(ix, ub, p)
  {
  }

  /** Storing the block disturbs neither the head's path nor the index over it. */
  lemma HeadUndisturbed(s: Store, b: Bodies, g: Hash, block: Header, txs: seq<TxHash>, h: Hash, ix: TxIndex)
    requires Tree(s, g) && h in s && TxIndexIs(ix, b, Path(s, h))
    requires block.hash in s ==> s[block.hash] == block
    requires block.hash in b ==> b[block.hash] == txs
    ensures Path(s[block.hash := block], h) == Path(s, h)
    ensures TxIndexIs(ix, b[block.hash := txs], Path(s, h))
  {
    PathGrows(s, g, s[block.hash := block], h);
    SameBodies(ix, b, b[block.hash := txs], Path(s, h));
  }

  lemma StoreBlock(s: Store, b: Bodies, g: Hash, canon: map<nat, Hash>, ix: TxIndex,
                   headerHead: Header, blockHead: Header, block: Header, txs: seq<TxHash>)
    requires Describes(s, b, g, canon, ix, headerHead, blockHead) && Fits(s, b, block, txs)
    requires GetHeader(s, block.parent, Pred(block.number)).Some?
    ensures Describes(s[block.hash := block], b[block.hash := txs], g, canon, ix, headerHead, blockHead)
  {
    TreeGrows(s, g, block);
    BodiesGrow(s, b, g, block, txs);
    HeadUndisturbed(s, b, g, block, txs, blockHead.hash, ix);
    PathGrows(s, g, s[block.hash := block], headerHead.hash);
  }

  datatype Op =
    | Write(block: Header, txs: seq<TxHash>)
    | Insert(block: Header, txs: seq<TxHash>)
    | Known(block: Header)
    | Canonical(block: Header, hasState: bool, recovered: bool)

  /** What an operation does to the view: a block is stored when its parent is known, and becomes head
      when it is stored and its state is there. */
  function Next(v: View, op: Op): View {
    match op
    case Write(block, _) =>
      if GetHeader(v.headers, block.parent, Pred(block.number)).Some?
      then View(v.headers[block.hash := block], block) else v
    case Insert(block, _) =>
      if GetHeader(v.headers, block.parent, Pred(block.number)).Some?
      then v.(headers := v.headers[block.hash := block]) else v
    case Known(block) => if block.hash in v.headers then v.(head := block) else v
    case Canonical(block, hasState, recovered) =>
      if block.hash in v.headers && (hasState || recovered) then v.(head := block) else v
  }

  function After(v: View, ops: seq<Op>): View {
    if ops == [] then v else Next(After(v, ops[..|ops| - 1]), ops[|ops| - 1])
  }

  datatype Snapshot = Snapshot(head: Header, canon: map<nat, Hash>, txIndex: TxIndex)

  /** All blocks that will ever be seen: one tree, in which no chain repeats a transaction. */
  ghost predicate Coherent(u: Store, b: Bodies, g: Hash) {
    && Tree(u, g) && b.Keys == u.Keys
    && forall h :: h in u ==> UniqueTxs(b, Path(u, h))
  }

  ghost predicate OfWorld(op: Op, u: Store, b: Bodies) {
    && Has(u, op.block)
    && (op.Write? || op.Insert? ==> op.block.hash in b && b[op.block.hash] == op.txs)
  }

  ghost predicate Within(s: Store, b: Bodies, u: Store, ub: Bodies) {
    && s.Keys == b.Keys && s.Keys <= u.Keys && u.Keys <= ub.Keys
    && forall h :: h in s ==> s[h] == u[h] && b[h] == ub[h]
  }

  ghost predicate Sound(t: Snapshot, u: Store, b: Bodies) {
    && Has(u, t.head)
    && t.canon == Index(Path(u, t.head.hash))
    && TxIndexIs(t.txIndex, b, Path(u, t.head.hash))
  }

  lemma InWorld(s: Store, b: Bodies, u: Store, ub: Bodies, g: Hash, h: Hash)
    requires Tree(s, g) && Coherent(u, ub, g) && Within(s, b, u, ub) && h in s
    ensures Path(u, h) == Path(s, h)
    ensures UniqueTxs(b, Path(s, h))
  {
    PathGrows(s, g, u, h);
    assert UniqueTxs(ub, Path(u, h));
  }

  lemma WriteFits(s: Store, b: Bodies, u: Store, ub: Bodies, g: Hash, block: Header, txs: seq<TxHash>)
    requires Tree(s, g) && Coherent(u, ub, g) && Within(s, b, u, ub)
    requires Has(u, block) && ub[block.hash] == txs
    ensures Fits(s, b, block, txs)
    ensures Within(s[block.hash := block], b[block.hash := txs], u, ub)
  {
    var s', b' := s[block.hash := block], b[block.hash := txs];
    assert Within(s', b', u, ub);
    if GetHeader(s, block.parent, Pred(block.number)).Some? {
      TreeGrows(s, g, block);
      assert UniqueTxs(b', Path(s', block.hash)) by {
        InWorld(s', b', u, ub, g, block.hash);
      }
    }
  }

  /** Every snapshot is sound, and its head is the one the operations so far lead to. */
  ghost predicate Recorded(trace: seq<Snapshot>, v: View, ops: seq<Op>, u: Store, b: Bodies) {
    && |trace| <= |ops|
    && forall i :: 0 <= i < |trace| ==> Sound(trace[i], u, b) && trace[i].head == After(v, ops[..i + 1]).head
  }

  lemma AfterStep(v: View, ops: seq<Op>, n: nat)
    requires n < |ops|
    ensures After(v, ops[..n + 1]) == Next(After(v, ops[..n]), ops[n])
  {
    assert ops[..n + 1][..n] == ops[..n];
  }

  lemma AppendSound(trace: seq<Snapshot>, t: Snapshot, v: View, ops: seq<Op>, u: Store, b: Bodies)
    requires Recorded(trace, v, ops, u, b) && |trace| < |ops| && Sound(t, u, b)
    requires t.head == After(v, ops[..|trace| + 1]).head
    ensures Recorded(trace + [t], v, ops, u, b)
  {
  }

  /** Head hashes kept in the database. */
  datatype Marks = Marks(header: Hash, snap: Hash, block: Hash)

  /** Head headers kept in memory. */
  datatype Heads = Heads(header: Header, snap: Header, block: Header)

  class BlockChain {
    const genesis: Hash
    // Database content.
    var headers: Store
    var bodies: Bodies
    var canon: map<nat, Hash>
    var txIndex: TxIndex
    var marks: Marks
    // In-memory markers.
    var heads: Heads
    var txLookupLocked: bool

    ghost predicate Consistent()
      reads this
    {
      && Describes(headers, bodies, genesis, canon, txIndex, heads.header, heads.block)
      && !txLookupLocked
    }

    /** Header head, snap head, block head and their database markers coincide. */
    ghost predicate AtHead()
      reads this
    {
      heads == Heads(heads.block, heads.block, heads.block)
      && marks == Marks(heads.block.hash, heads.block.hash, heads.block.hash)
    }

    /** The arguments of a switch to newHead: a stored block on a chain that repeats no transaction. */
    ghost predicate CanSwitch(newHead: Header)
      reads this
    {
      Has(headers, newHead) && newHead.hash in bodies && UniqueTxs(bodies, Path(headers, newHead.hash))
    }

    /** Making the block head deletes no marker when it extends the block head, so none must lie above. */
    ghost predicate Clean(block: Header)
      reads this
    {
      block.parent == heads.block.hash ==> heads.header.number <= block.number
    }

    constructor (genesisHeader: Header)
      requires genesisHeader.number == 0 && genesisHeader.hash != NO_HASH && genesisHeader.parent == NO_HASH
      ensures Consistent() && AtHead() && genesis == genesisHeader.hash
      ensures heads.block == genesisHeader && headers == map[genesisHeader.hash := genesisHeader]
      ensures bodies == map[genesisHeader.hash := []]
    {
      genesis := genesisHeader.hash;
      headers := map[genesisHeader.hash := genesisHeader];
      bodies := map[genesisHeader.hash := []];
      canon := map[0 := genesisHeader.hash];
      txIndex := map[];
      marks := Marks(genesisHeader.hash, genesisHeader.hash, genesisHeader.hash);
      heads := Heads(genesisHeader, genesisHeader, genesisHeader);
      txLookupLocked := false;
    }

    /** Marks the block as head of everything. Deletes nothing above it. */
    method WriteHeadBlock(block: Header)
      requires block.hash in bodies
      modifies this
      ensures headers == old(headers) && bodies == old(bodies) && txLookupLocked == old(txLookupLocked)
      ensures canon == old(canon)[block.number := block.hash]
      ensures txIndex == old(txIndex) + BlockEntries(bodies[block.hash], block.number)
      ensures AtHead() && heads.block == block
    {
      canon := canon[block.number := block.hash];
      txIndex := txIndex + BlockEntries(bodies[block.hash], block.number);
      marks := Marks(block.hash, block.hash, block.hash);
      heads := Heads(block, block, block);
    }

    /** First search phase of reorg: brings one head down to the height of the other. The
        ghost p is the head's ancestor path when the store has it down to genesis. */
    method Reduce(head: Header, number: nat, ghost p: seq<Hash>) returns (r: Option<Header>, chain: seq<Header>)
      requires Keyed(headers) && Has(headers, head) && number <= head.number
      ensures r.Some? ==> Has(headers, r.value) && r.value.number == number
      ensures Lineage(headers, genesis, p, head.hash) ==> r.Some? && Walked(headers, p, chain, r.value)
    {
      ghost var rooted := Lineage(headers, genesis, p, head.hash);
      r, chain := Some(head), [];
      while r.Some? && r.value.number != number
        invariant r.Some? ==> Has(headers, r.value) && number <= r.value.number
        invariant rooted ==> r.Some? && Walked(headers, p, chain, r.value)
        decreases if r.Some? then r.value.number + 1 else 0
      {
        if rooted {
          WalkDown(headers, genesis, p, head.hash, chain, r.value);
        }
        chain := chain + [r.value];
        r := GetHeader(headers, r.value.parent, Pred(r.value.number));
      }
    }

    /** Search phase of reorg: the common ancestor of both heads, and the headers above it
        on each side, top first. */
    method FindFork(oldHead: Header, newHead: Header, ghost p: seq<Hash>, ghost q: seq<Hash>)
      returns (r: Status, oldChain: seq<Header>, newChain: seq<Header>, ancestor: Header)
      requires Keyed(headers) && Has(headers, oldHead) && Has(headers, newHead)
      ensures r in {Ok, InvalidOldChain, InvalidNewChain}
      ensures Lineage(headers, genesis, p, oldHead.hash) && Lineage(headers, genesis, q, newHead.hash) ==>
                && r == Ok
                && Walked(headers, p, oldChain, ancestor) && Walked(headers, q, newChain, ancestor)
                && SplitAt(p, q, ancestor.number + 1)
    {
      ghost var rooted := Lineage(headers, genesis, p, oldHead.hash) && Lineage(headers, genesis, q, newHead.hash);
      var o, n;
      ancestor := oldHead;
      if oldHead.number > newHead.number {
        o, oldChain := Reduce(oldHead, newHead.number, p);
        n, newChain := Some(newHead), [];
      } else {
        n, newChain := Reduce(newHead, oldHead.number, q);
        o, oldChain := Some(oldHead), [];
      }
      if o.None? {
        return InvalidOldChain, oldChain, newChain, ancestor;
      }
      if n.None? {
        return InvalidNewChain, oldChain, newChain, ancestor;
      }
      var a, b := o.value, n.value;
      while a.hash != b.hash
        invariant a.number == b.number && Has(headers, a) && Has(headers, b)
        invariant rooted ==> Level(headers, p, q, oldChain, a, newChain, b)
        decreases a.number
      {
        if rooted {
          LevelDown(headers, genesis, p, oldHead.hash, q, newHead.hash, oldChain, a, newChain, b);
        }
        oldChain := oldChain + [a];
        newChain := newChain + [b];
        var a' := GetHeader(headers, a.parent, Pred(a.number));
        if a'.None? {
          return InvalidOldChain, oldChain, newChain, ancestor;
        }
        var b' := GetHeader(headers, b.parent, Pred(b.number));
        if b'.None? {
          return InvalidNewChain, oldChain, newChain, ancestor;
        }
        a, b := a'.value, b'.value;
      }
      ancestor := a;
      if rooted {
        LevelEnds(headers, genesis, p, oldHead.hash, q, newHead.hash, oldChain, a, newChain, b);
      }
      return Ok, oldChain, newChain, ancestor;
    }

    /** Transactions of the dropped blocks, or failure when a block body is missing. */
    method CollectDropped(oldChain: seq<Header>, ghost p: seq<Hash>, ghost k: nat)
      returns (ok: bool, txs: seq<TxHash>)
      ensures ok <==> Bodied(bodies, oldChain, 0)
      ensures Supplied(bodies, oldChain, p, k) ==> Lists(txs, Entries(bodies, p, k, |p|))
    {
      ghost var supplied := Supplied(bodies, oldChain, p, k);
      ok, txs := true, [];
      var i := 0;
      while i < |oldChain|
        invariant 0 <= i <= |oldChain|
        invariant forall j :: 0 <= j < i ==> oldChain[j].hash in bodies
        invariant supplied ==> Lists(txs, Entries(bodies, p, |p| - i, |p|))
      {
        if oldChain[i].hash !in bodies {
          return false, txs;
        }
        txs := txs + bodies[oldChain[i].hash];
        if supplied {
          EntriesFromTop(bodies, p, |p| - i - 1, |p|);
        }
        i := i + 1;
      }
    }

    /** Makes the new blocks canonical in forward order, all but the new head itself. */
    method ApplyNew(newChain: seq<Header>) returns (ok: bool, txs: seq<TxHash>)
      modifies this
      ensures headers == old(headers) && bodies == old(bodies) && txLookupLocked == old(txLookupLocked)
      ensures ok <==> Bodied(bodies, newChain, 1)
      ensures ok ==> canon == CanonAfter(old(canon), newChain, 1)
      ensures ok ==> txIndex == IndexAfter(old(txIndex), bodies, newChain, 1)
      ensures ok ==> txs == TxsAfter(bodies, newChain, 1)
    {
      ok, txs := true, [];
      var i := |newChain| - 1;
      while i >= 1
        invariant -1 <= i < |newChain| && (i < 0 ==> newChain == [])
        invariant headers == old(headers) && bodies == old(bodies) && txLookupLocked == old(txLookupLocked)
        invariant forall j :: i < j < |newChain| ==> newChain[j].hash in bodies
        invariant canon == CanonAfter(old(canon), newChain, i + 1)
        invariant txIndex == IndexAfter(old(txIndex), bodies, newChain, i + 1)
        invariant txs == TxsAfter(bodies, newChain, i + 1)
        decreases i
      {
        var block := newChain[i];
        if block.hash !in bodies {
          return false, txs;
        }
        txs := txs + bodies[block.hash];
        WriteHeadBlock(block);
        i := i - 1;
      }
    }

    /** Markers from the given number up to the first gap. */
    method MarkersFrom(number: nat) returns (stale: set<nat>, stop: nat)
      ensures number <= stop && ReadCanonical(canon, stop) == NO_HASH
      ensures forall n :: n in stale <==> number <= n < stop
    {
      ghost var bound := UpperBound(canon.Keys);
      var i := number;
      stale := {};
      while ReadCanonical(canon, i) != NO_HASH
        invariant number <= i
        invariant forall n :: n in stale <==> number <= n < i
        decreases if i < bound then bound - i else 0
      {
        stale := stale + {i};
        i := i + 1;
      }
      stop := i;
    }

    /** Switches markers and lookup index from oldHead's chain to newHead's, except for newHead
        itself unless it was already on the old chain. The ghosts are the ancestor paths of the old
        head, the new head and the header head. A failed search changes nothing; a missing body
        returns with the lookup lock still held. */
    method ReorgAlong(oldHead: Header, newHead: Header,
                      ghost p: seq<Hash>, ghost q: seq<Hash>, ghost r: seq<Hash>)
      returns (st: Status, ghost m: nat, ghost fork: nat)
      requires Keyed(headers) && Has(headers, oldHead) && Has(headers, newHead) && !txLookupLocked
      modifies this
      ensures headers == old(headers) && bodies == old(bodies)
      ensures st == Ok ==> !txLookupLocked
      ensures st != Ok && !txLookupLocked ==> unchanged(this)
      ensures Lineage(headers, genesis, p, oldHead.hash) && Lineage(headers, genesis, q, newHead.hash) ==>
                SplitAt(p, q, fork) && (txLookupLocked <==> !Available(bodies, p, q, fork))
      ensures old(Switchable(headers, bodies, canon, txIndex, genesis, oldHead, newHead, p, q, r)) ==>
                && st == Ok && |q| - 1 <= m <= |q|
                && canon == Index(q[..m]) && TxIndexIs(txIndex, bodies, q[..m])
    {
      ghost var good := Switchable(headers, bodies, canon, txIndex, genesis, oldHead, newHead, p, q, r);
      ghost var canon0, ix0 := canon, txIndex;
      var oldChain, newChain, ancestor;
      st, oldChain, newChain, ancestor := FindFork(oldHead, newHead, p, q);
      m, fork := 0, ancestor.number + 1;
      if st != Ok {
        return;
      }
      ghost var k := fork;
      ghost var rooted := Lineage(headers, genesis, p, oldHead.hash) && Lineage(headers, genesis, q, newHead.hash);
      if rooted {
        BodiesRead(headers, bodies, p, q, oldChain, newChain, ancestor);
      }
      txLookupLocked := true;
      if good {
        WalkSupplies(headers, bodies, genesis, p, oldHead.hash, oldChain, ancestor);
        WalkSupplies(headers, bodies, genesis, q, newHead.hash, newChain, ancestor);
        assert q[..k] == p[..k] == r[..k];
      }
      var ok, deleted := CollectDropped(oldChain, p, k);
      if !ok {
        return InvalidOldChain, m, fork;
      }
      var reborn;
      ok, reborn := ApplyNew(newChain);
      if !ok {
        return InvalidNewChain, m, fork;
      }
      var number := ancestor.number;
      if |newChain| > 1 {
        number := newChain[1].number;
      }
      var stale, stop := MarkersFrom(number + 1);
      var dropped := set t | t in HashDifference(deleted, reborn);
      if good {
        m := |q| - (if newChain == [] then 0 else 1);
        assert number + 1 == m;
        MarkersSwitched(headers, bodies, genesis, canon0, q, r, newHead.hash, newChain, ancestor, m, stop, stale);
        LookupSwitched(headers, bodies, genesis, ix0, p, q, newHead.hash, newChain, ancestor, m, deleted);
      }
      txIndex := txIndex - dropped;
      canon := canon - stale;
      txLookupLocked := false;
      return Ok, m, fork;
    }

    /** Makes a stored block the head. The lookup index always becomes that of its chain. The markers
        become its ancestor path exactly when no header beyond it was marked on top of the old
        block head: extending the block head directly deletes no marker. */
    method WriteKnownBlock(block: Header) returns (st: Status)
      requires Consistent() && CanSwitch(block)
      modifies this
      ensures st == Ok && headers == old(headers) && bodies == old(bodies) && !txLookupLocked
      ensures AtHead() && heads.block == block
      ensures TxIndexIs(txIndex, bodies, Path(headers, block.hash))
      ensures canon == Index(Path(headers, block.hash)) <==> old(Clean(block))
      ensures canon == Index(Path(headers, block.hash)) <==> Consistent()
      ensures old(AtHead()) ==> Consistent()
    {
      ghost var q := Path(headers, block.hash);
      ghost var p := Path(headers, heads.block.hash);
      ghost var r := Path(headers, heads.header.hash);
      SwitchFacts(headers, bodies, genesis, heads.block, heads.header, block);
      if block.parent != heads.block.hash {
        ghost var m, fork;
        st, m, fork := ReorgAlong(heads.block, block, p, q, r);
        HeadOnTop(txIndex, bodies, q, m);
        MarkTop(q, m);
      } else {
        IndexNext(txIndex, bodies, p, block.hash);
        DirectExtension(p, r, block.hash);
      }
      WriteHeadBlock(block);
      st := Ok;
    }

    /** Makes the given stored block the head, whether it extends, replaces or precedes the current
        one. When its state is missing and cannot be recovered, nothing changes. */
    method SetCanonical(head: Header, hasState: bool, recovered: bool) returns (st: Status)
      requires Consistent() && CanSwitch(head)
      modifies this
      ensures headers == old(headers) && bodies == old(bodies)
      ensures st == if hasState || recovered then Ok else StateUnrecoverable
      ensures st == Ok ==> AtHead() && heads.block == head && TxIndexIs(txIndex, bodies, Path(headers, head.hash))
      ensures st == Ok ==> (Consistent() <==> old(Clean(head))) && (old(AtHead()) ==> Consistent())
      ensures st != Ok ==> unchanged(this)
    {
      if !hasState {
        if !recovered {
          return StateUnrecoverable;
        }
      }
      st := WriteKnownBlock(head);
    }

    /** Stores an executed block, or refuses it when its parent header is missing. */
    method WriteBlockWithState(block: Header, txs: seq<TxHash>) returns (st: Status)
      requires Consistent() && Fits(headers, bodies, block, txs)
      modifies this`headers, this`bodies
      ensures Consistent()
      ensures st == if GetHeader(old(headers), block.parent, Pred(block.number)).Some? then Ok else UnknownAncestor
      ensures st == Ok ==>
                && headers == old(headers)[block.hash := block] && bodies == old(bodies)[block.hash := txs]
                && CanSwitch(block)
      ensures st != Ok ==> headers == old(headers) && bodies == old(bodies)
    {
      if GetHeader(headers, block.parent, Pred(block.number)).None? {
        return UnknownAncestor;
      }
      StoreBlock(headers, bodies, genesis, canon, txIndex, heads.header, heads.block, block, txs);
      headers := headers[block.hash := block];
      bodies := bodies[block.hash := txs];
      return Ok;
    }

    /** Stores an executed block and makes it the head; a refused block changes nothing. */
    method WriteBlockAndSetHead(block: Header, txs: seq<TxHash>) returns (st: Status)
      requires Consistent() && Fits(headers, bodies, block, txs)
      modifies this
      ensures st == if GetHeader(old(headers), block.parent, Pred(block.number)).Some? then Ok else UnknownAncestor
      ensures st == Ok ==>
                && headers == old(headers)[block.hash := block] && bodies == old(bodies)[block.hash := txs]
                && AtHead() && heads.block == block && TxIndexIs(txIndex, bodies, Path(headers, block.hash))
      ensures st == Ok ==> (Consistent() <==> old(Clean(block))) && (old(AtHead()) ==> Consistent())
      ensures st != Ok ==> unchanged(this)
    {
      st := WriteBlockWithState(block, txs);
      if st == Ok {
        st := WriteKnownBlock(block);
      }
    }

    /** Storing a block as the head. */
    method ApplyWrite(op: Op, ghost u: Store, ghost b: Bodies)
      requires op.Write?
      requires Coherent(u, b, genesis) && OfWorld(op, u, b)
      requires Consistent() && AtHead() && Within(headers, bodies, u, b)
      modifies this
      ensures Consistent() && AtHead() && Within(headers, bodies, u, b)
      ensures var v := Next(old(View(headers, heads.block)), op); headers == v.headers && heads.block == v.head
    {
      ghost var s', b' := headers[op.block.hash := op.block], bodies[op.block.hash := op.txs];
      assert Fits(headers, bodies, op.block, op.txs) && Within(s', b', u, b) by {
        WriteFits(headers, bodies, u, b, genesis, op.block, op.txs);
      }
      var _ := WriteBlockAndSetHead(op.block, op.txs);
    }

    /** Storing a block beside the head. */
    method ApplyInsert(block: Header, txs: seq<TxHash>, ghost u: Store, ghost b: Bodies)
      requires Coherent(u, b, genesis) && Has(u, block) && block.hash in b && b[block.hash] == txs
      requires Consistent() && AtHead() && Within(headers, bodies, u, b)
      modifies this`headers, this`bodies
      ensures Consistent() && Within(headers, bodies, u, b)
      ensures headers == if GetHeader(old(headers), block.parent, Pred(block.number)).Some?
                         then old(headers)[block.hash := block] else old(headers)
    {
      assert Fits(headers, bodies, block, txs)
             && Within(headers[block.hash := block], bodies[block.hash := txs], u, b) by {
        WriteFits(headers, bodies, u, b, genesis, block, txs);
      }
      var _ := WriteBlockWithState(block, txs);
    }

    /** Making a stored block the head; ignored when it is not stored. */
    method ApplySwitch(op: Op, ghost u: Store, ghost b: Bodies)
      requires op.Known? || op.Canonical?
      requires Coherent(u, b, genesis) && OfWorld(op, u, b)
      requires Consistent() && AtHead() && Within(headers, bodies, u, b)
      modifies this
      ensures Consistent() && AtHead() && Within(headers, bodies, u, b)
      ensures var v := Next(old(View(headers, heads.block)), op); headers == v.headers && heads.block == v.head
    {
      if op.block.hash !in bodies {
        return;
      }
      InWorld(headers, bodies, u, b, genesis, op.block.hash);
      if op.Known? {
        var _ := WriteKnownBlock(op.block);
      } else {
        var _ := SetCanonical(op.block, op.hasState, op.recovered);
      }
    }

    /** One operation of a run. */
    method Apply(op: Op, ghost u: Store, ghost b: Bodies)
      requires Coherent(u, b, genesis) && OfWorld(op, u, b)
      requires Consistent() && AtHead() && Within(headers, bodies, u, b)
      modifies this
      ensures Consistent() && AtHead() && Within(headers, bodies, u, b)
      ensures var v := Next(old(View(headers, heads.block)), op); headers == v.headers && heads.block == v.head
    {
      if op.Write? {
        ApplyWrite(op, u, b);
      } else if op.Insert? {
        ApplyInsert(op.block, op.txs, u, b);
      } else {
        ApplySwitch(op, u, b);
      }
    }

    /** Any run of block writes, writes that leave the head, known-block writes and canonical switches, over
        blocks of one coherent world, leaves after each operation the last accepted block as head, the
        markers at its ancestor path and the lookup index at the transactions of that path. */
    method Run(ops: seq<Op>, ghost u: Store, ghost b: Bodies) returns (trace: seq<Snapshot>)
      requires Coherent(u, b, genesis) && (forall i :: 0 <= i < |ops| ==> OfWorld(ops[i], u, b))
      requires Consistent() && AtHead() && Within(headers, bodies, u, b)
      modifies this
      ensures |trace| == |ops| && Recorded(trace, old(View(headers, heads.block)), ops, u, b)
      ensures Consistent() && AtHead()
    {
      ghost var v0 := View(headers, heads.block);
      ghost var v := v0;
      trace := [];
      for n := 0 to |ops|
        invariant Consistent() && AtHead() && Within(headers, bodies, u, b)
        invariant v == After(v0, ops[..n]) && headers == v.headers && heads.block == v.head
        invariant |trace| == n && Recorded(trace, v0, ops, u, b)
      {
        AfterStep(v0, ops, n);
        v := Next(v, ops[n]);
        Apply(ops[n], u, b);
        InWorld(headers, bodies, u, b, genesis, heads.block.hash);
        SameBodies(txIndex, bodies, b, Path(headers, heads.block.hash));
        AppendSound(trace, Snapshot(heads.block, canon, txIndex), v0, ops, u, b);
        trace := trace + [Snapshot(heads.block, canon, txIndex)];
      }
    }
  }

  /** The same from a new database that holds genesis only. */
  method RunFromGenesis(genesis: Header, ops: seq<Op>, ghost u: Store, ghost b: Bodies)
    returns (chain: BlockChain, trace: seq<Snapshot>)
    requires Coherent(u, b, genesis.hash) && Has(u, genesis) && b[genesis.hash] == []
    requires forall i :: 0 <= i < |ops| ==> OfWorld(ops[i], u, b)
    ensures fresh(chain) && chain.Consistent() && chain.AtHead()
    ensures |trace| == |ops| && Recorded(trace, View(map[genesis.hash := genesis], genesis), ops, u, b)
  {
    chain := new BlockChain(genesis);
    trace := chain.Run(ops, u, b);
  }
}
