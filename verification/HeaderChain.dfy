/** The header chain of core/headerchain.go: importing header batches, reorganising the
    canonical markers onto them, and rewinding the head. */
module HeaderChains {
  import opened Basics
  import opened BlockTree

  datatype Outcome = Done | UnknownAncestor | Aborted | MissingParent | Rejected

  /** Consecutive headers, each the parent of the next, whose hashes identify them. */
  ghost predicate LinkedBatch(hs: seq<Header>) {
    && (forall i :: 0 <= i < |hs| ==> hs[i].hash != NO_HASH && hs[i].number < MAX_U64)
    && (forall i, j {:trigger hs[i], hs[j]} :: 0 <= i < j < |hs| ==>
          && hs[j].number == hs[i].number + (j - i)
          && hs[i].hash != hs[j].hash
          && (j == i + 1 ==> hs[j].parent == hs[i].hash))
  }

  /** The hashes of the batch agree with what the store already holds under them. */
  ghost predicate Agrees(s: Store, hs: seq<Header>) {
    forall i :: 0 <= i < |hs| ==> (hs[i].hash in s ==> s[hs[i].hash] == hs[i])
  }

  ghost predicate Stored(s: Store, hs: seq<Header>) {
    forall i :: 0 <= i < |hs| ==> Has(s, hs[i])
  }

  /** A pending write of canonical markers; the zero hash stands for a deletion. */
  type Batch = map<nat, Hash>

  function Commit(canon: map<nat, Hash>, batch: Batch): map<nat, Hash> {
    map n | n in canon.Keys + batch.Keys && (n in batch ==> batch[n] != NO_HASH) ::
      if n in batch then batch[n] else canon[n]
  }

  /** The batch rewrites the markers of path p into those of path q. */
  ghost predicate Rewrites(batch: Batch, p: seq<Hash>, q: seq<Hash>) {
    && (forall n :: n in batch ==> if n < |q| then batch[n] == q[n] else batch[n] == NO_HASH)
    && (forall n: nat :: n < |q| && n !in batch ==> n < |p| && p[n] == q[n])
    && (forall n: nat :: |q| <= n < |p| ==> n in batch)
  }

  lemma RewriteCommits(batch: Batch, p: seq<Hash>, q: seq<Hash>)
    requires Rewrites(batch, p, q) && forall i :: 0 <= i < |q| ==> q[i] != NO_HASH
    ensures Commit(Index(p), batch) == Index(q)
  {
    var c := Commit(Index(p), batch);
    forall n: nat
      ensures n in c <==> n < |q|
      ensures n < |q| ==> c[n] == q[n]
    {
      if n < |q| && n !in batch {
        assert p[n] == q[n];
      }
      if |q| <= n < |p| {
        assert n in batch;
      }
    }
  }

  /** p is the ancestor path of the head the markers describe, q that of another header. */
  ghost predicate Rooted(s: Store, g: Hash, canon: map<nat, Hash>, p: seq<Hash>, head: Hash, q: seq<Hash>, top: Hash) {
    Lineage(s, g, p, head) && Lineage(s, g, q, top) && canon == Index(p)
  }

  /** The walk down from a header meets no marker and ends above genesis at a header whose parent is
      missing. */
  ghost predicate Detached(s: Store, canon: map<nat, Hash>, h: Hash)
    requires h in s
  {
    var p := Path(s, h);
    && p[0] in s && s[p[0]].number > 0
    && forall i :: 0 <= i < |p| ==> p[i] in s && ReadCanonical(canon, s[p[i]].number) != p[i]
  }

  /** One step of that walk. */
  lemma DetachedStep(s: Store, canon: map<nat, Hash>, h: Hash)
    requires h in s
    ensures Detached(s, canon, h) <==>
            ReadCanonical(canon, s[h].number) != h
            && if HasParent(s, h) then Detached(s, canon, s[h].parent) else s[h].number > 0
  {
    if HasParent(s, h) {
      var p, q := Path(s, h), Path(s, s[h].parent);
      assert p == q + [h];
      if Detached(s, canon, s[h].parent) && ReadCanonical(canon, s[h].number) != h {
        forall i | 0 <= i < |p|
          ensures p[i] in s && ReadCanonical(canon, s[p[i]].number) != p[i]
        {
          assert i < |q| ==> p[i] == q[i];
        }
      }
      if Detached(s, canon, h) {
        assert p[|q|] == h;
        forall i | 0 <= i < |q|
          ensures q[i] in s && ReadCanonical(canon, s[q[i]].number) != q[i]
        {
          assert p[i] == q[i];
        }
      }
    } else {
      assert Path(s, h) == [h];
    }
  }

  /** A linked batch occupies the top of its last header's path. */
  lemma {:induction false} BatchOnPath(s: Store, g: Hash, q: seq<Hash>, hs: seq<Header>)
    requires LinkedBatch(hs) && hs != [] && Stored(s, hs) && Lineage(s, g, q, hs[|hs| - 1].hash)
    ensures OnPath(q, hs)
  {
    var k := |hs| - 1;
    while k > 0
      invariant 0 <= k < |hs|
      invariant forall i :: k <= i < |hs| ==> hs[i].number < |q| && q[hs[i].number] == hs[i].hash
    {
      assert hs[k].parent == hs[k - 1].hash;
      assert hs[k].number == hs[k - 1].number + 1;
      assert q[hs[k - 1].number] == hs[k - 1].hash;
      k := k - 1;
    }
  }

  /** The batch already rewrites everything except the heights from f to the top of q. */
  ghost predicate Prepared(batch: Batch, p: seq<Hash>, q: seq<Hash>, f: nat) {
    && (forall n :: n in batch ==> if n < |q| then batch[n] == q[n] else batch[n] == NO_HASH)
    && (forall n: nat :: n < f && n < |q| && n !in batch ==> n < |p| && p[n] == q[n])
    && (forall n: nat :: |q| <= n < |p| ==> n in batch)
  }

  ghost predicate OnPath(q: seq<Hash>, hs: seq<Header>) {
    && hs != [] && hs[|hs| - 1].number + 1 == |q|
    && forall i :: 0 <= i < |hs| ==> hs[i].number < |q| && q[hs[i].number] == hs[i].hash
  }

  /** A batch that starts on the head itself shares the whole path below. */
  lemma ExtendsHead(s: Store, g: Hash, p: seq<Hash>, head: Hash, q: seq<Hash>, top: Hash, first: Header)
    requires Keyed(s) && Lineage(s, g, p, head) && Lineage(s, g, q, top) && head in s
    requires Has(s, first) && first.number < |q| && q[first.number] == first.hash
    requires first.parent == head && s[g].parent == NO_HASH
    ensures |p| == first.number && p == q[..first.number]
  {
    var n := first.number;
    assert n > 0;
    assert q[n - 1] == head;
    LineagePrefix(s, g, q, top, n - 1);
    LineageUnique(s, g, p, q[..n], head);
  }

  /** The store after writing a batch. */
  ghost function Merged(s: Store, hs: seq<Header>): Store {
    if hs == [] then s else Merged(s, hs[..|hs| - 1])[hs[|hs| - 1].hash := hs[|hs| - 1]]
  }

  /** How many headers of the batch are new to the store. */
  ghost function CountNew(s: Store, hs: seq<Header>): nat {
    if hs == [] then 0
    else CountNew(s, hs[..|hs| - 1]) + if hs[|hs| - 1].hash in s then 0 else 1
  }

  /** Length of the longest run of stored headers at the front of the batch. */
  function KnownPrefix(s: Store, hs: seq<Header>): (k: nat)
    ensures k <= |hs| && (forall i :: 0 <= i < k ==> GetHeader(s, hs[i].hash, hs[i].number).Some?)
    ensures k < |hs| ==> GetHeader(s, hs[k].hash, hs[k].number).None?
  {
    if hs == [] || GetHeader(s, hs[0].hash, hs[0].number).None? then 0 else 1 + KnownPrefix(s, hs[1..])
  }

  lemma {:induction false} MergedStores(s: Store, hs: seq<Header>)
    requires LinkedBatch(hs) && Agrees(s, hs)
    ensures Stored(Merged(s, hs), hs)
    ensures s.Keys <= Merged(s, hs).Keys && forall h :: h in s ==> Merged(s, hs)[h] == s[h]
  {
    if hs != [] {
      MergedStores(s, hs[..|hs| - 1]);
    }
  }

  /** Writing the next header of the batch, or leaving it out because it is stored already. */
  lemma MergeNext(s: Store, batch: Store, hs: seq<Header>, i: nat)
    requires i < |hs| && s + batch == Merged(s, hs[..i]) && hs[i].hash !in batch
    ensures s + batch[hs[i].hash := hs[i]] == Merged(s, hs[..i + 1])
    ensures Has(s, hs[i]) ==> s + batch == Merged(s, hs[..i + 1])
    ensures CountNew(s, hs[..i + 1]) == CountNew(s, hs[..i]) + if hs[i].hash in s then 0 else 1
  {
    assert hs[..i + 1][..i] == hs[..i];
    var h := hs[i];
    assert s + batch[h.hash := h] == (s + batch)[h.hash := h];
  }

  /** In a tree a stored header of the batch has its predecessor in the batch stored. */
  lemma KnownBefore(s: Store, g: Hash, hs: seq<Header>, i: nat)
    requires Tree(s, g) && LinkedBatch(hs) && Agrees(s, hs) && 0 < i < |hs| && hs[i].hash in s
    ensures hs[i - 1].hash in s
  {
    assert hs[i].parent == hs[i - 1].hash && hs[i].number == hs[i - 1].number + 1;
    assert HasParent(s, hs[i].hash);
  }

  /** In a tree everything after the first new header is new. */
  lemma {:induction false} NewAfterPrefix(s: Store, g: Hash, hs: seq<Header>, n: nat)
    requires Tree(s, g) && LinkedBatch(hs) && Agrees(s, hs) && n <= |hs|
    ensures var k := KnownPrefix(s, hs);
            && CountNew(s, hs[..n]) == (if n <= k then 0 else n - k)
            && (k < n ==> hs[n - 1].hash !in s)
  {
    if n > 0 {
      NewAfterPrefix(s, g, hs, n - 1);
      assert hs[..n][..n - 1] == hs[..n - 1];
      if hs[n - 1].hash in s && n > 1 {
        KnownBefore(s, g, hs, n - 1);
      }
    }
  }

  /** A batch rooted in a tree extends the tree. */
  lemma {:induction false} MergedTree(s: Store, g: Hash, hs: seq<Header>)
    requires Tree(s, g) && LinkedBatch(hs) && Agrees(s, hs)
    requires hs != [] ==> GetHeader(s, hs[0].parent, Pred(hs[0].number)).Some?
    ensures Tree(Merged(s, hs), g)
  {
    if hs != [] {
      var n := |hs| - 1;
      var front := hs[..n];
      MergedTree(s, g, front);
      MergedStores(s, front);
      var t := Merged(s, front);
      var h := hs[n];
      assert h.parent in t && t[h.parent].number + 1 == h.number by {
        if n > 0 {
          assert front[n - 1] == hs[n - 1];
          assert h.parent == hs[n - 1].hash;
        }
      }
      assert h.hash in t ==> t[h.hash] == h by {
        MergedKeys(s, front);
      }
      TreeGrows(t, g, h);
    }
  }

  lemma {:induction false} MergedKeys(s: Store, hs: seq<Header>)
    ensures forall h :: h in Merged(s, hs) ==> h in s || exists i :: 0 <= i < |hs| && hs[i].hash == h
    ensures forall h :: h in Merged(s, hs) && h !in s ==>
              exists i :: 0 <= i < |hs| && hs[i].hash == h && Merged(s, hs)[h] == hs[i]
  {
    if hs != [] {
      MergedKeys(s, hs[..|hs| - 1]);
    }
  }

  lemma MergeFacts(s: Store, g: Hash, hs: seq<Header>, head: Hash)
    requires Tree(s, g) && LinkedBatch(hs) && Agrees(s, hs) && hs != [] && head in s
    ensures GetHeader(s, hs[0].parent, Pred(hs[0].number)).Some? ==> Tree(Merged(s, hs), g)
    ensures Stored(Merged(s, hs), hs)
    ensures s.Keys <= Merged(s, hs).Keys && forall h :: h in s ==> Merged(s, hs)[h] == s[h]
    ensures Path(Merged(s, hs), head) == Path(s, head)
  {
    MergedStores(s, hs);
    if GetHeader(s, hs[0].parent, Pred(hs[0].number)).Some? {
      MergedTree(s, g, hs);
    }
    PathGrows(s, g, Merged(s, hs), head);
  }

  lemma OnPathIffMarked(s: Store, g: Hash, head: Hash, h: Header)
    requires Tree(s, g) && head in s && Has(s, h)
    ensures h.hash in Path(s, head) <==>
            ReadCanonical(Index(Path(s, head)), h.number) == h.hash && h.number <= s[head].number
  {
    PathShape(s, g, head);
  }

  function HashesAt(s: Store, n: nat): set<Hash> {
    set h | h in s && s[h].number == n
  }

  /** What is left of the store s0 and markers canon0, once the pending deletions are flushed, is
      everything not at one of the heights gone. */
  ghost predicate Removed(s0: Store, canon0: map<nat, Hash>, s: Store, canon: map<nat, Hash>,
                          hashes: set<Hash>, heights: set<nat>, gone: set<nat>)
  {
    && s - hashes == (map h | h in s0 && s0[h].number !in gone :: s0[h])
    && canon - heights == canon0 - gone
  }

  lemma RemoveHeight(s0: Store, canon0: map<nat, Hash>, s: Store, canon: map<nat, Hash>,
                     hashes: set<Hash>, heights: set<nat>, gone: set<nat>, num: nat, found: set<Hash>)
    requires Removed(s0, canon0, s, canon, hashes, heights, gone)
    requires num !in gone && HashesAt(s0, num) != {}
    requires HashesAt(s, num) != {} ==> found == HashesAt(s, num)
    ensures Removed(s0, canon0, s, canon, hashes + found, heights + {num}, gone + {num})
  {
    var left := s - hashes;
    var h0 :| h0 in HashesAt(s0, num);
    assert h0 in left && h0 in HashesAt(s, num);
    var left' := s - (hashes + found);
    forall h
      ensures h in left' <==> h in s0 && s0[h].number !in gone + {num}
      ensures h in left' ==> left'[h] == s0[h]
    {
      assert h in left' <==> h in left && h !in found;
    }
    assert canon - (heights + {num}) == (canon - heights) - {num};
    assert canon0 - (gone + {num}) == (canon0 - gone) - {num};
  }

  lemma FlushKeeps(s0: Store, canon0: map<nat, Hash>, s: Store, canon: map<nat, Hash>,
                   hashes: set<Hash>, heights: set<nat>, gone: set<nat>)
    requires Removed(s0, canon0, s, canon, hashes, heights, gone)
    ensures Removed(s0, canon0, s - hashes, canon - heights, {}, {}, gone)
  {
  }

  /** Whether the rewind may stop at h: by timestamp when one is given, else by number. */
  predicate IsDone(h: Header, headBlock: nat, headTime: nat) {
    if headTime > 0 then h.time <= headTime else h.number <= headBlock
  }

  /** State of a rewind that started from the head of path p over store s0: the heights strictly
      between the current head and top are gone, and there is nothing at or above top. */
  ghost predicate Rewinding(s0: Store, canon0: map<nat, Hash>, genesis: Header, p: seq<Hash>,
                            s: Store, canon: map<nat, Hash>, current: Header,
                            hashes: set<Hash>, heights: set<nat>, origin: bool, top: nat, gone: set<nat>)
  {
    && Keyed(s0) && Has(s0, genesis) && p != [] && Lineage(s0, genesis.hash, p, p[|p| - 1])
    && Has(s0, current) && current.number < |p| && p[current.number] == current.hash
    && Removed(s0, canon0, s, canon, hashes, heights, gone)
    && (if origin then s == s0 && gone == {}
        else HashesAt(s0, top) == {} && (forall n :: n in gone <==> current.number < n < top) && current.number < top)
  }

  lemma ParentSurvives(s0: Store, canon0: map<nat, Hash>, genesis: Header, p: seq<Hash>,
                       s: Store, canon: map<nat, Hash>, current: Header,
                       hashes: set<Hash>, heights: set<nat>, origin: bool, top: nat, gone: set<nat>)
    requires Rewinding(s0, canon0, genesis, p, s, canon, current, hashes, heights, origin, top, gone)
    requires current.number > 0
    ensures var r := GetHeader(s, current.parent, Pred(current.number));
            r.Some? && r.value.hash == p[current.number - 1] && Has(s0, r.value)
  {
    var h := p[current.number - 1];
    assert current.parent == h;
    assert h in s - hashes;
  }

  /** In a tree every height below a header is occupied, so an empty height has nothing above it. */
  lemma HeightOccupied(s: Store, g: Hash, n: nat, h: Hash)
    requires Tree(s, g) && h in s && n <= s[h].number
    ensures HashesAt(s, n) != {}
  {
    PathShape(s, g, h);
    assert Path(s, h)[n] in HashesAt(s, n);
  }

  function StoreUpto(s: Store, n: nat): Store {
    map h | h in s && s[h].number <= n :: s[h]
  }

  function Upto(canon: map<nat, Hash>, n: nat): map<nat, Hash> {
    map k | k in canon && k <= n :: canon[k]
  }

  /** Cutting a tree at a height leaves a tree, with the same paths. */
  lemma CutTree(s: Store, g: Hash, n: nat, h: Hash)
    requires Tree(s, g) && h in s && s[h].number <= n
    ensures Tree(StoreUpto(s, n), g)
    ensures Path(StoreUpto(s, n), h) == Path(s, h)
  {
    var t := StoreUpto(s, n);
    forall k | k in t && t[k].number > 0
      ensures HasParent(t, k)
    {
      assert HasParent(s, k);
    }
    PathGrows(t, g, s, h);
  }

  lemma HeadBelow(s: Store, g: Hash, top: nat, h: Hash)
    requires Tree(s, g) && HashesAt(s, top) == {} && h in s
    ensures s[h].number < top && |Path(s, h)| <= top
  {
    PathShape(s, g, h);
    if s[h].number >= top {
      HeightOccupied(s, g, top, h);
    }
  }

  lemma StoreCut(s0: Store, g: Hash, c: nat, top: nat, gone: set<nat>)
    requires Tree(s0, g) && HashesAt(s0, top) == {} && c < top
    requires forall n :: n in gone <==> c < n < top
    ensures (map h | h in s0 && s0[h].number !in gone :: s0[h]) == StoreUpto(s0, c)
  {
    forall h | h in s0
      ensures s0[h].number < top
    {
      HeadBelow(s0, g, top, h);
    }
  }

  lemma MarkersCut(p: seq<Hash>, c: nat, top: nat, gone: set<nat>)
    requires c < |p| <= top && forall n :: n in gone <==> c < n < top
    ensures Index(p) - gone == Upto(Index(p), c) == Index(p[..c + 1])
  {
  }

  /** Flushing the last batch leaves the tree cut at the new head. */
  lemma RewindEnds(s0: Store, canon0: map<nat, Hash>, genesis: Header, p: seq<Hash>,
                   s: Store, canon: map<nat, Hash>, current: Header,
                   hashes: set<Hash>, heights: set<nat>, origin: bool, top: nat, gone: set<nat>)
    requires Rewinding(s0, canon0, genesis, p, s, canon, current, hashes, heights, origin, top, gone)
    requires Tree(s0, genesis.hash) && p == Path(s0, p[|p| - 1]) && canon0 == Index(p)
    requires origin ==> current.number + 1 == |p|
    ensures !origin ==> s - hashes == StoreUpto(s0, current.number)
    ensures canon - heights == Upto(canon0, current.number) == Index(p[..current.number + 1])
    ensures Tree(s - hashes, genesis.hash) && Has(s - hashes, current) && Has(s - hashes, genesis)
    ensures Path(s - hashes, current.hash) == p[..current.number + 1]
  {
    var c := current.number;
    PathPrefix(s0, genesis.hash, p[|p| - 1], c);
    if !origin {
      StoreCut(s0, genesis.hash, c, top, gone);
      HeadBelow(s0, genesis.hash, top, p[|p| - 1]);
      MarkersCut(p, c, top, gone);
      CutTree(s0, genesis.hash, c, current.hash);
    } else {
      assert s - hashes == s0;
      assert canon - heights == canon0;
    }
  }

  /** The plain k-fold parent walk. */
  function Ancestor(s: Store, hash: Hash, number: nat, k: nat): Option<(Hash, nat)>
    decreases k, number, hash, s
  {
    if k == 0 then Some((hash, number))
    else if number == 0 || GetHeader(s, hash, number).None? then None
    else Ancestor(s, GetHeader(s, hash, number).value.parent, number - 1, k - 1)
  }

  /** Headers the walk reads before it stands on a canonical block or is finished. */
  ghost function Reads(s: Store, canon: map<nat, Hash>, hash: Hash, number: nat, k: nat): nat
    decreases k, number, hash, canon, s
  {
    if k == 0 || ReadCanonical(canon, number) == hash then 0
    else if number == 0 || GetHeader(s, hash, number).None? then 1
    else 1 + Reads(s, canon, GetHeader(s, hash, number).value.parent, number - 1, k - 1)
  }

  /** The arguments on which a missing marker is mistaken for the zero hash. */
  predicate ZeroAboveHead(canon: map<nat, Hash>, hash: Hash, number: nat, ancestor: nat) {
    hash == NO_HASH && 2 <= ancestor <= number && number !in canon
  }

  /** With genesis alone stored, the zero hash at height 5 has no ancestor, yet it compares equal to the
      missing marker, so the answer is read from the markers as height 3. */
  lemma ZeroHashExample()
    ensures var s := map[1 := Header(1, NO_HASH, 0, 1, 0)];
            var canon := Index(Path(s, 1));
            && Tree(s, 1) && ZeroAboveHead(canon, NO_HASH, 5, 2) && Ancestor(s, NO_HASH, 5, 2).None?
            && ReadCanonical(canon, 5) == NO_HASH && (ReadCanonical(canon, 5 - 2), 5 - 2) != (NO_HASH, 0)
  {
    var s := map[1 := Header(1, NO_HASH, 0, 1, 0)];
    assert Path(s, 1) == [1];
  }

  lemma {:induction false} TooFar(s: Store, hash: Hash, number: nat, k: nat)
    requires k > number
    ensures Ancestor(s, hash, number, k).None?
    decreases k
  {
    if number > 0 && GetHeader(s, hash, number).Some? {
      TooFar(s, GetHeader(s, hash, number).value.parent, number - 1, k - 1);
    }
  }

  lemma {:induction false} AncestorOnPath(s: Store, g: Hash, p: seq<Hash>, head: Hash, n: nat, k: nat)
    requires Lineage(s, g, p, head) && k <= n < |p|
    ensures Ancestor(s, p[n], n, k) == Some((p[n - k], n - k))
    decreases k
  {
    if k > 0 {
      assert s[p[n]].parent == p[n - 1];
      AncestorOnPath(s, g, p, head, n - 1, k - 1);
    }
  }

  /** From a marked height the markers give every ancestor, and genesis is always marked. */
  lemma JumpExact(s: Store, g: Hash, canon: map<nat, Hash>, head: Hash, number: nat, k: nat)
    requires Tree(s, g) && head in s && canon == Index(Path(s, head)) && k <= number
    ensures ReadCanonical(canon, 0) != NO_HASH
    ensures number in canon ==>
              Ancestor(s, canon[number], number, k) == Some((ReadCanonical(canon, number - k), number - k))
  {
    var p := Path(s, head);
    PathLineage(s, g, head);
    assert canon[0] == p[0];
    if number in canon {
      AncestorOnPath(s, g, p, head, number, k);
    }
  }

  datatype HeaderOp = Import(hs: seq<Header>, interrupted: bool) | Rewind(headBlock: nat, headTime: nat)

  datatype HeadSnapshot = HeadSnapshot(headers: Store, head: Header, canon: map<nat, Hash>)

  /** Closest ancestor of h, or h itself, that satisfies the target, as far as the store can follow. */
  function Rewound(s: Store, h: Header, headBlock: nat, headTime: nat): Header
    decreases h.number, headTime, headBlock, s
  {
    if IsDone(h, headBlock, headTime) then h
    else
      match GetHeader(s, h.parent, Pred(h.number))
      case None => h
      case Some(parent) => if parent.number < h.number then Rewound(s, parent, headBlock, headTime) else h
  }

  /** What an operation does to store and head: an accepted import stores the batch and moves the head to
      its end unless that is on the head's path already; a rewind moves the head to its closest ancestor
      that satisfies the target and, if it moves, removes everything above. */
  ghost function Next(v: View, genesis: Header, op: HeaderOp): View {
    match op
    case Import(hs, interrupted) =>
      if hs == [] || GetHeader(v.headers, hs[0].parent, Pred(hs[0].number)).None? || interrupted then v
      else
        var last := hs[|hs| - 1];
        View(Merged(v.headers, hs),
             if v.head.hash in v.headers && last.hash in Path(v.headers, v.head.hash) then v.head else last)
    case Rewind(headBlock, headTime) =>
      if headTime > 0 && genesis.time > headTime then v
      else
        var head := Rewound(v.headers, v.head, headBlock, headTime);
        View(if IsDone(v.head, headBlock, headTime) then v.headers else StoreUpto(v.headers, head.number), head)
  }

  ghost function After(v: View, genesis: Header, ops: seq<HeaderOp>): View {
    if ops == [] then v else Next(After(v, genesis, ops[..|ops| - 1]), genesis, ops[|ops| - 1])
  }

  lemma AfterStep(v: View, genesis: Header, ops: seq<HeaderOp>, n: nat)
    requires n < |ops|
    ensures After(v, genesis, ops[..n + 1]) == Next(After(v, genesis, ops[..n]), genesis, ops[n])
  {
    assert ops[..n + 1][..n] == ops[..n];
  }

  /** The first header down the path that satisfies the target. */
  lemma {:induction false} RewoundIs(s: Store, g: Hash, h: Header, c: Header, headBlock: nat, headTime: nat)
    requires Tree(s, g) && Has(s, h) && Has(s, c) && c.number <= h.number
    requires c.number < |Path(s, h.hash)| && Path(s, h.hash)[c.number] == c.hash && IsDone(c, headBlock, headTime)
    requires var p := Path(s, h.hash);
             forall i :: c.number < i < |p| ==> p[i] in s && !IsDone(s[p[i]], headBlock, headTime)
    ensures Rewound(s, h, headBlock, headTime) == c
    decreases h.number
  {
    var p := Path(s, h.hash);
    PathShape(s, g, h.hash);
    if c.number < h.number {
      assert p[h.number] == h.hash && HasParent(s, h.hash);
      var q := Path(s, h.parent);
      assert p == q + [h.hash];
      PathShape(s, g, h.parent);
      assert forall i :: 0 <= i < |q| ==> q[i] == p[i];
      RewoundIs(s, g, s[h.parent], c, headBlock, headTime);
    }
  }

  /** The markers are those of the head's ancestor path in the tree u. */
  ghost predicate Follows(t: HeadSnapshot, u: Store) {
    Has(u, t.head) && t.canon == Index(Path(u, t.head.hash))
  }

  /** Every snapshot has its markers on the head's path, and store and head are those the operations so
      far lead to. */
  ghost predicate Recorded(trace: seq<HeadSnapshot>, v: View, genesis: Header, ops: seq<HeaderOp>, u: Store) {
    && |trace| <= |ops|
    && forall i :: 0 <= i < |trace| ==>
         Follows(trace[i], u) && View(trace[i].headers, trace[i].head) == After(v, genesis, ops[..i + 1])
  }

  lemma AppendRecorded(trace: seq<HeadSnapshot>, t: HeadSnapshot, v: View, genesis: Header,
                       ops: seq<HeaderOp>, u: Store)
    requires Recorded(trace, v, genesis, ops, u) && |trace| < |ops| && Follows(t, u)
    requires View(t.headers, t.head) == After(v, genesis, ops[..|trace| + 1])
    ensures Recorded(trace + [t], v, genesis, ops, u)
  {
  }

  ghost predicate PartOf(s: Store, u: Store) {
    s.Keys <= u.Keys && forall h :: h in s ==> s[h] == u[h]
  }

  lemma {:induction false} MergedPart(s: Store, u: Store, hs: seq<Header>)
    requires PartOf(s, u) && Stored(u, hs)
    ensures Agrees(s, hs) && PartOf(Merged(s, hs), u)
  {
    if hs != [] {
      assert Has(u, hs[|hs| - 1]);
      MergedPart(s, u, hs[..|hs| - 1]);
    }
  }

  /** A budget passed by reference. */
  class Counter {
    var left: nat

    constructor (n: nat)
      ensures left == n
    {
      left := n;
    }
  }

  class HeaderChain {
    const genesis: Header
    // Database content.
    var headers: Store
    var canon: map<nat, Hash>
    var headHash: Hash
    // In-memory markers.
    var current: Header
    var currentHash: Hash

    /** The markers are exactly the ancestor path of the head header. */
    ghost predicate Valid()
      reads this
    {
      && Tree(headers, genesis.hash) && Has(headers, genesis)
      && Has(headers, current) && currentHash == current.hash && headHash == current.hash
      && canon == Index(Path(headers, current.hash))
    }

    constructor (genesisHeader: Header)
      requires genesisHeader.number == 0 && genesisHeader.hash != NO_HASH && genesisHeader.parent == NO_HASH
      ensures Valid() && current == genesis == genesisHeader
      ensures headers == map[genesisHeader.hash := genesisHeader]
    {
      genesis := genesisHeader;
      headers := map[genesisHeader.hash := genesisHeader];
      canon := map[0 := genesisHeader.hash];
      headHash, current, currentHash := genesisHeader.hash, genesisHeader, genesisHeader.hash;
    }

    /** Deletions for the markers from the given number up to the first gap. */
    method DeleteFrom(number: nat, ghost p: seq<Hash>) returns (batch: Batch)
      ensures forall n :: n in batch ==> number <= n && batch[n] == NO_HASH
      ensures canon == Index(p) && (forall i :: 0 <= i < |p| ==> p[i] != NO_HASH) ==>
                forall n: nat :: number <= n < |p| ==> n in batch
    {
      ghost var bound := UpperBound(canon.Keys);
      var i := number;
      batch := map[];
      while ReadCanonical(canon, i) != NO_HASH
        invariant number <= i
        invariant forall n :: n in batch <==> number <= n < i
        invariant forall n :: n in batch ==> batch[n] == NO_HASH
        decreases if i < bound then bound - i else 0
      {
        batch := batch[i := NO_HASH];
        i := i + 1;
      }
    }

    /** Walks back from the first header of an import, overwriting markers until one matches; below
        that marker the two paths agree. The ghosts are the head's path and that of some top on the
        imported branch. */
    method OverwriteBack(first: Header, ghost p: seq<Hash>, ghost head: Hash, ghost q: seq<Hash>, ghost top: Hash)
      returns (ok: bool, batch: Batch)
      requires Keyed(headers) && Has(headers, first)
      ensures ok <==> !Detached(headers, canon, first.hash)
      ensures Rooted(headers, genesis.hash, canon, p, head, q, top)
              && first.number < |q| && q[first.number] == first.hash ==>
                && ok
                && (forall n :: n in batch ==> n <= first.number && batch[n] == q[n])
                && (forall n: nat :: n <= first.number && n !in batch ==> n < |p| && p[n] == q[n])
    {
      ghost var rooted := Rooted(headers, genesis.hash, canon, p, head, q, top)
                          && first.number < |q| && q[first.number] == first.hash;
      batch := map[];
      var header, number, hash := first, first.number, first.hash;
      while ReadCanonical(canon, number) != hash
        invariant number <= first.number && header.number == number && header.hash == hash && Has(headers, header)
        invariant rooted ==> q[number] == hash
        invariant rooted ==> forall n :: n in batch <==> number < n <= first.number
        invariant rooted ==> forall n :: n in batch ==> batch[n] == q[n]
        invariant Detached(headers, canon, first.hash) <==> Detached(headers, canon, hash)
        decreases number
      {
        DetachedStep(headers, canon, hash);
        batch := batch[number := hash];
        if number == 0 {
          return true, batch;
        }
        hash, number := header.parent, header.number - 1;
        var next := GetHeader(headers, hash, number);
        if rooted {
          assert q[number + 1] == header.hash && q[number] == hash;
        }
        if next.None? {
          return false, batch;
        }
        header := next.value;
      }
      DetachedStep(headers, canon, hash);
      if rooted {
        LineagesMerge(headers, genesis.hash, p, head, q, top, number);
        forall n: nat | n <= first.number && n !in batch
          ensures n < |p| && p[n] == q[n]
        {
          assert p[..number + 1][n] == q[..number + 1][n];
        }
      }
      return true, batch;
    }

    /** Adds the markers of the imported headers themselves to the pending batch. */
    method Extend(hs: seq<Header>, batch0: Batch, ghost p: seq<Hash>, ghost q: seq<Hash>) returns (batch: Batch)
      requires LinkedBatch(hs) && hs != []
      ensures Prepared(batch0, p, q, hs[0].number) && OnPath(q, hs) ==> Rewrites(batch, p, q)
    {
      ghost var prepared := Prepared(batch0, p, q, hs[0].number) && OnPath(q, hs);
      batch := batch0;
      for i := 0 to |hs| - 1
        invariant prepared ==> Prepared(batch, p, q, hs[i].number)
      {
        assert hs[i + 1].parent == hs[i].hash && hs[i + 1].number == hs[i].number + 1;
        batch := batch[hs[i].number := hs[i + 1].parent];
      }
      batch := batch[hs[|hs| - 1].number := hs[|hs| - 1].hash];
    }

    /** Pending markers for a batch that does or does not start on the head. */
    method Prepare(hs: seq<Header>, ghost p: seq<Hash>, ghost q: seq<Hash>) returns (ok: bool, batch: Batch)
      requires Keyed(headers) && LinkedBatch(hs) && hs != [] && Stored(headers, hs) && currentHash == current.hash
      ensures ok <==> hs[0].parent == currentHash || !Detached(headers, canon, hs[0].hash)
      ensures Rooted(headers, genesis.hash, canon, p, current.hash, q, hs[|hs| - 1].hash) && OnPath(q, hs)
              && headers[genesis.hash].parent == NO_HASH ==>
                ok && Prepared(batch, p, q, hs[0].number)
    {
      var first, last := hs[0], hs[|hs| - 1];
      ghost var rooted := Rooted(headers, genesis.hash, canon, p, current.hash, q, last.hash) && OnPath(q, hs)
                          && headers[genesis.hash].parent == NO_HASH;
      if first.parent != currentHash {
        var dels := DeleteFrom(last.number + 1, p);
        var writes;
        ok, writes := OverwriteBack(first, p, current.hash, q, last.hash);
        batch := dels + writes;
      } else {
        if rooted {
          ExtendsHead(headers, genesis.hash, p, current.hash, q, last.hash, first);
        }
        ok, batch := true, map[];
      }
    }

    /** The batch of marker changes that moves the head to the end of the given headers. */
    method Plan(hs: seq<Header>) returns (ok: bool, batch: Batch)
      requires Keyed(headers) && LinkedBatch(hs) && hs != [] && Stored(headers, hs) && currentHash == current.hash
      ensures ok <==> hs[0].parent == currentHash || !Detached(headers, canon, hs[0].hash)
      ensures Valid() ==> ok && Commit(canon, batch) == Index(Path(headers, hs[|hs| - 1].hash))
    {
      ghost var valid := Valid();
      ghost var p: seq<Hash>, q: seq<Hash> := [], [];
      if valid {
        p, q := Path(headers, current.hash), Path(headers, hs[|hs| - 1].hash);
        PathLineage(headers, genesis.hash, current.hash);
        PathLineage(headers, genesis.hash, hs[|hs| - 1].hash);
        BatchOnPath(headers, genesis.hash, q, hs);
      }
      ok, batch := Prepare(hs, p, q);
      batch := Extend(hs, batch, p, q);
      if valid {
        RewriteCommits(batch, p, q);
      }
    }

    /** Makes the last header of a stored, linked batch the head. When an ancestor is missing the
        pending batch is dropped and nothing changes. */
    method Reorg(hs: seq<Header>) returns (r: Outcome)
      requires Keyed(headers) && LinkedBatch(hs) && Stored(headers, hs) && currentHash == current.hash
      modifies this
      ensures headers == old(headers) && r in {Done, MissingParent}
      ensures r == MissingParent <==>
              hs != [] && hs[0].parent != old(currentHash) && Detached(headers, old(canon), hs[0].hash)
      ensures r == MissingParent || hs == [] ==> unchanged(this)
      ensures r == Done && hs != [] ==> current == hs[|hs| - 1] && currentHash == headHash == current.hash
      ensures old(Valid()) ==> r == Done && Valid()
    {
      if |hs| == 0 {
        return Done;
      }
      var ok, batch := Plan(hs);
      if !ok {
        return MissingParent;
      }
      canon := Commit(canon, batch);
      headHash := hs[|hs| - 1].hash;
      currentHash := headHash;
      current := hs[|hs| - 1];
      return Done;
    }

    /** Stores a linked batch whose first parent is known. The first new header and all after it count as
        inserted; an unknown parent or an interrupt leaves the store alone. */
    method WriteHeaders(hs: seq<Header>, interrupted: bool) returns (r: Outcome, inserted: nat)
      requires LinkedBatch(hs) && Agrees(headers, hs)
      modifies this`headers
      ensures r == if hs == [] then Done
                   else if GetHeader(old(headers), hs[0].parent, Pred(hs[0].number)).None? then UnknownAncestor
                   else if interrupted then Aborted else Done
      ensures headers == if r == Done then Merged(old(headers), hs) else old(headers)
      ensures inserted == if r == Done then |hs| - KnownPrefix(old(headers), hs) else 0
    {
      if |hs| == 0 {
        return Done, 0;
      }
      if GetHeader(headers, hs[0].parent, Pred(hs[0].number)).None? {
        return UnknownAncestor, 0;
      }
      var batch: Store, parentKnown := map[], true;
      ghost var k := KnownPrefix(headers, hs);
      inserted := 0;
      for i := 0 to |hs|
        invariant headers == old(headers) && headers + batch == Merged(headers, hs[..i])
        invariant forall j :: i <= j < |hs| ==> hs[j].hash !in batch
        invariant parentKnown == (i <= k) && inserted == if i <= k then 0 else i - k
      {
        var known := parentKnown && GetHeader(headers, hs[i].hash, hs[i].number).Some?;
        MergeNext(headers, batch, hs, i);
        if !known {
          batch := batch[hs[i].hash := hs[i]];
          inserted := inserted + 1;
        }
        parentKnown := known;
      }
      assert hs[..|hs|] == hs;
      if interrupted {
        return Aborted, 0;
      }
      headers := headers + batch;
      return Done, inserted;
    }

    /** Imports a nonempty batch and moves the head to its end, unless that end is canonical already.
        Every non-aborted import keeps the markers at the head's ancestor path. */
    method WriteHeadersAndSetHead(hs: seq<Header>, interrupted: bool)
      returns (r: Outcome, imported: nat, canonical: bool)
      requires Valid() && LinkedBatch(hs) && Agrees(headers, hs) && hs != []
      modifies this
      ensures Valid()
      ensures r == if GetHeader(old(headers), hs[0].parent, Pred(hs[0].number)).None? then UnknownAncestor
                   else if interrupted then Aborted else Done
      ensures r != Done ==> unchanged(this)
      ensures r == Done ==>
                var last := hs[|hs| - 1];
                && headers == Merged(old(headers), hs) && imported == CountNew(old(headers), hs)
                && (canonical <==> last.hash !in old(Path(headers, current.hash)))
                && current == (if canonical then last else old(current))
    {
      var last := hs[|hs| - 1];
      canonical := false;
      MergeFacts(headers, genesis.hash, hs, current.hash);
      NewAfterPrefix(headers, genesis.hash, hs, |hs|);
      assert hs[..|hs|] == hs;
      r, imported := WriteHeaders(hs, interrupted);
      if r != Done {
        return;
      }
      OnPathIffMarked(headers, genesis.hash, current.hash, last);
      if ReadCanonical(canon, last.number) == last.hash && last.number <= current.number {
        return;
      }
      r := Reorg(hs);
      canonical := true;
    }

    /** Heights above num that hold any header, up to the first empty one, in descending order. */
    method LeftoverHeights(num: nat) returns (nums: seq<nat>, ghost top: nat)
      ensures num < top && HashesAt(headers, top) == {}
      ensures |nums| == top - num - 1 && forall i :: 0 <= i < |nums| ==> nums[i] == top - 1 - i
      ensures forall n :: n in nums <==> num < n < top
      ensures forall i :: 0 <= i < |nums| ==> HashesAt(headers, nums[i]) != {}
    {
      ghost var numbers := set h | h in headers :: headers[h].number;
      ghost var bound := UpperBound(numbers);
      var n := num + 1;
      nums := [];
      while HashesAt(headers, n) != {}
        invariant num < n && |nums| == n - num - 1
        invariant forall i :: 0 <= i < |nums| ==> nums[i] == n - 1 - i
        invariant forall k :: k in nums <==> num < k < n
        invariant forall i :: 0 <= i < |nums| ==> HashesAt(headers, nums[i]) != {}
        decreases if n < bound then bound - n else 0
      {
        ghost var h :| h in HashesAt(headers, n);
        assert headers[h].number in numbers;
        nums := [n] + nums;
        n := n + 1;
      }
      top := n;
    }

    /** Deletes every header and the marker at one height, and may flush the pending batch. */
    method DeleteHeight(num: nat, hdr: Hash, hashes0: set<Hash>, heights0: set<nat>,
                        ghost s0: Store, ghost canon0: map<nat, Hash>, ghost gone: set<nat>)
      returns (hashes: set<Hash>, heights: set<nat>, ghost done: set<nat>)
      requires Removed(s0, canon0, headers, canon, hashes0, heights0, gone)
      requires num !in gone && HashesAt(s0, num) != {}
      modifies this`headers, this`canon
      ensures Removed(s0, canon0, headers, canon, hashes, heights, done) && done == gone + {num}
    {
      var found := HashesAt(headers, num);
      if found == {} {
        found := {hdr};
      }
      done := gone + {num};
      RemoveHeight(s0, canon0, headers, canon, hashes0, heights0, gone, num, found);
      hashes, heights := hashes0 + found, heights0 + {num};
      if * {
        FlushKeeps(s0, canon0, headers, canon, hashes, heights, done);
        headers, canon := headers - hashes, canon - heights;
        hashes, heights := {}, {};
      }
    }

    /** Deletes every header and the marker at each of the given heights, flushing the pending batch
        at arbitrary points. */
    method DeleteHeights(nums: seq<nat>, hdr: Hash, hashes0: set<Hash>, heights0: set<nat>,
                         ghost s0: Store, ghost canon0: map<nat, Hash>, ghost gone: set<nat>)
      returns (hashes: set<Hash>, heights: set<nat>, ghost done: set<nat>)
      requires Removed(s0, canon0, headers, canon, hashes0, heights0, gone)
      requires forall i :: 0 <= i < |nums| ==> nums[i] !in gone && HashesAt(s0, nums[i]) != {}
      requires forall i, j :: 0 <= i < j < |nums| ==> nums[i] != nums[j]
      modifies this`headers, this`canon
      ensures Removed(s0, canon0, headers, canon, hashes, heights, done)
      ensures forall n :: n in done <==> n in gone || n in nums
    {
      hashes, heights, done := hashes0, heights0, gone;
      for i := 0 to |nums|
        invariant Removed(s0, canon0, headers, canon, hashes, heights, done)
        invariant forall n :: n in done <==> n in gone || n in nums[..i]
      {
        assert nums[i] !in nums[..i];
        assert nums[..i + 1] == nums[..i] + [nums[i]];
        hashes, heights, done := DeleteHeight(nums[i], hdr, hashes, heights, s0, canon0, done);
      }
    }

    /** One round of the rewind: the head moves to its parent, then the old head's height, and in the
        first round every leftover height above it, is scheduled for deletion on all forks. */
    method StepBack(origin: bool, hashes0: set<Hash>, heights0: set<nat>,
                    ghost s0: Store, ghost canon0: map<nat, Hash>, ghost p: seq<Hash>,
                    ghost top0: nat, ghost gone0: set<nat>)
      returns (hashes: set<Hash>, heights: set<nat>, ghost top: nat, ghost gone: set<nat>)
      requires Rewinding(s0, canon0, genesis, p, headers, canon, current, hashes0, heights0, origin, top0, gone0)
      requires current.number > 0
      modifies this
      ensures Rewinding(s0, canon0, genesis, p, headers, canon, current, hashes, heights, false, top, gone)
      ensures current.number + 1 == old(current.number) && currentHash == headHash == current.hash
    {
      var hdr := current;
      var num := hdr.number;
      ParentSurvives(s0, canon0, genesis, p, headers, canon, hdr, hashes0, heights0, origin, top0, gone0);
      var parent := GetHeader(headers, hdr.parent, Pred(num));
      current := if parent.Some? then parent.value else genesis;
      headHash, currentHash := current.hash, current.hash;
      var nums := [];
      top := top0;
      if origin {
        nums, top := LeftoverHeights(num);
      }
      nums := nums + [num];
      assert hdr.hash in HashesAt(s0, num);
      hashes, heights, gone := DeleteHeights(nums, hdr.hash, hashes0, heights0, s0, canon0, gone0);
    }

    /** The loop of the rewind: steps back until the target is met. */
    method WalkBack(headBlock: nat, headTime: nat, ghost s0: Store, ghost canon0: map<nat, Hash>, ghost p: seq<Hash>)
      returns (hashes: set<Hash>, heights: set<nat>, origin: bool, ghost top: nat, ghost gone: set<nat>)
      requires Rewinding(s0, canon0, genesis, p, headers, canon, current, {}, {}, true, 0, {})
      requires currentHash == headHash == current.hash && current.number + 1 == |p|
      requires IsDone(genesis, headBlock, headTime)
      modifies this
      ensures Rewinding(s0, canon0, genesis, p, headers, canon, current, hashes, heights, origin, top, gone)
      ensures currentHash == headHash == current.hash && IsDone(current, headBlock, headTime)
      ensures forall i :: current.number < i < |p| ==> p[i] in s0 && !IsDone(s0[p[i]], headBlock, headTime)
      ensures origin <==> IsDone(old(current), headBlock, headTime)
      ensures origin ==> unchanged(this) && hashes == {} && heights == {}
    {
      hashes, heights, origin, top, gone := {}, {}, true, 0, {};
      while !IsDone(current, headBlock, headTime)
        invariant Rewinding(s0, canon0, genesis, p, headers, canon, current, hashes, heights, origin, top, gone)
        invariant currentHash == headHash == current.hash
        invariant forall i :: current.number < i < |p| ==> p[i] in s0 && !IsDone(s0[p[i]], headBlock, headTime)
        invariant origin ==> unchanged(this) && hashes == {} && heights == {}
        invariant !origin ==> !IsDone(old(current), headBlock, headTime)
        decreases current.number
      {
        assert s0[p[current.number]] == current;
        hashes, heights, top, gone := StepBack(origin, hashes, heights, s0, canon0, p, top, gone);
        origin := false;
      }
    }

    /** Rewinds the head to its closest ancestor that satisfies the number or timestamp target. A
        timestamp before genesis is fatal. Unless the head satisfied the target already, every header
        above the new head is removed on all forks and the markers become the prefix up to it. */
    method SetHead(headBlock: nat, headTime: nat) returns (r: Outcome)
      requires Valid()
      modifies this
      ensures r == if headTime > 0 && genesis.time > headTime then Rejected else Done
      ensures r == Rejected ==> unchanged(this)
      ensures r == Done ==> Valid()
      ensures r == Done ==>
                var p := old(Path(headers, current.hash));
                && current.number < |p| && p[current.number] == current.hash && IsDone(current, headBlock, headTime)
                && (forall i :: current.number < i < |p| ==>
                      p[i] in old(headers) && !IsDone(old(headers)[p[i]], headBlock, headTime))
                && canon == Upto(old(canon), current.number)
                && headers == (if IsDone(old(current), headBlock, headTime) then old(headers)
                               else StoreUpto(old(headers), current.number))
    {
      if headTime > 0 && genesis.time > headTime {
        return Rejected;
      }
      ghost var s0, canon0, p := headers, canon, Path(headers, current.hash);
      assert Lineage(s0, genesis.hash, p, current.hash) by {
        PathLineage(headers, genesis.hash, current.hash);
      }
      assert Removed(s0, canon0, headers, canon, {}, {}, {});
      var hashes, heights, origin, top, gone := WalkBack(headBlock, headTime, s0, canon0, p);
      RewindEnds(s0, canon0, genesis, p, headers, canon, current, hashes, heights, origin, top, gone);
      headers, canon := headers - hashes, canon - heights;
      return Done;
    }

    /** The k-th ancestor of a block, jumping through the markers as soon as the walk is canonical and
        spending one unit of the budget for every header read before that. Exact for every argument,
        except that a zero hash at a height without marker counts as canonical. */
    method GetAncestor(hash0: Hash, number0: nat, ancestor0: nat, budget: Counter) returns (hash: Hash, number: nat)
      requires Valid()
      modifies budget
      ensures var walk := Ancestor(headers, hash0, number0, ancestor0);
              var steps := Reads(headers, canon, hash0, number0, ancestor0);
              var direct := ancestor0 > number0 || ancestor0 == 1;
              (hash, number) ==
                (if walk.Some? && (direct || steps <= old(budget.left)) then walk.value else (NO_HASH, 0))
              <==> !ZeroAboveHead(canon, hash0, number0, ancestor0)
      ensures budget.left <= old(budget.left)
      ensures !ZeroAboveHead(canon, hash0, number0, ancestor0) ==>
                var steps := if ancestor0 > number0 || ancestor0 == 1 then 0
                             else Reads(headers, canon, hash0, number0, ancestor0);
                budget.left == if steps <= old(budget.left) then old(budget.left) - steps else 0
    {
      var ancestor: nat := ancestor0;
      hash, number := hash0, number0;
      if ancestor > number {
        TooFar(headers, hash, number, ancestor);
        return NO_HASH, 0;
      }
      if ancestor == 1 {
        var header := GetHeader(headers, hash, number);
        if header.Some? {
          return header.value.parent, number - 1;
        }
        return NO_HASH, 0;
      }
      while ancestor != 0
        invariant ancestor <= number && budget.left <= old(budget.left)
        invariant ZeroAboveHead(canon, hash0, number0, ancestor0) ==>
                    hash == hash0 && number == number0 && ancestor == ancestor0
        invariant ancestor != 0 && hash == NO_HASH ==> hash == hash0 && number == number0 && ancestor == ancestor0
        invariant Ancestor(headers, hash, number, ancestor) == Ancestor(headers, hash0, number0, ancestor0)
        invariant old(budget.left) - budget.left + Reads(headers, canon, hash, number, ancestor)
               == Reads(headers, canon, hash0, number0, ancestor0)
        decreases ancestor
      {
        if ReadCanonical(canon, number) == hash {
          JumpExact(headers, genesis.hash, canon, current.hash, number, ancestor);
          hash := ReadCanonical(canon, number - ancestor);
          number := number - ancestor;
          return;
        }
        if budget.left == 0 {
          return NO_HASH, 0;
        }
        budget.left := budget.left - 1;
        ancestor := ancestor - 1;
        var header := GetHeader(headers, hash, number);
        if header.None? {
          return NO_HASH, 0;
        }
        assert ancestor != 0 ==> HasParent(headers, hash);
        hash := header.value.parent;
        number := number - 1;
      }
    }

    /** An import within a block tree u that holds everything ever imported. */
    method ApplyImport(hs: seq<Header>, interrupted: bool, ghost u: Store)
      requires Valid() && Tree(u, genesis.hash) && PartOf(headers, u) && LinkedBatch(hs) && Stored(u, hs)
      modifies this
      ensures Valid() && PartOf(headers, u)
      ensures var v := Next(old(View(headers, current)), genesis, Import(hs, interrupted));
              headers == v.headers && current == v.head
    {
      if hs != [] {
        MergedPart(headers, u, hs);
        var _, _, _ := WriteHeadersAndSetHead(hs, interrupted);
      }
    }

    method ApplyRewind(headBlock: nat, headTime: nat, ghost u: Store)
      requires Valid() && PartOf(headers, u)
      modifies this
      ensures Valid() && PartOf(headers, u)
      ensures var v := Next(old(View(headers, current)), genesis, Rewind(headBlock, headTime));
              headers == v.headers && current == v.head
    {
      ghost var s0, h0 := headers, current;
      var r := SetHead(headBlock, headTime);
      if r == Done {
        assert Has(s0, current) && current.number <= h0.number by {
          PathShape(s0, genesis.hash, h0.hash);
        }
        RewoundIs(s0, genesis.hash, h0, current, headBlock, headTime);
      }
    }

    /** One import or rewind. */
    method Apply(op: HeaderOp, ghost u: Store)
      requires Valid() && Tree(u, genesis.hash) && PartOf(headers, u)
      requires op.Import? ==> LinkedBatch(op.hs) && Stored(u, op.hs)
      modifies this
      ensures Valid() && PartOf(headers, u)
      ensures var v := Next(old(View(headers, current)), genesis, op); headers == v.headers && current == v.head
    {
      match op {
        case Import(hs, interrupted) => ApplyImport(hs, interrupted, u);
        case Rewind(headBlock, headTime) => ApplyRewind(headBlock, headTime, u);
      }
    }

    /** Any run of imports, aborted or not, and rewinds leaves after every operation the store and head its
        specification says, and the markers at the ancestor path of that head. */
    method Run(ops: seq<HeaderOp>, ghost u: Store) returns (trace: seq<HeadSnapshot>)
      requires Valid() && Tree(u, genesis.hash) && PartOf(headers, u)
      requires forall i :: 0 <= i < |ops| ==> ops[i].Import? ==> LinkedBatch(ops[i].hs) && Stored(u, ops[i].hs)
      modifies this
      ensures Valid() && |trace| == |ops| && Recorded(trace, old(View(headers, current)), genesis, ops, u)
    {
      ghost var v0 := View(headers, current);
      ghost var v := v0;
      trace := [];
      for n := 0 to |ops|
        invariant Valid() && PartOf(headers, u) && |trace| == n
        invariant v == After(v0, genesis, ops[..n]) && headers == v.headers && current == v.head
        invariant Recorded(trace, v0, genesis, ops, u)
      {
        AfterStep(v0, genesis, ops, n);
        v := Next(v, genesis, ops[n]);
        Apply(ops[n], u);
        PathGrows(headers, genesis.hash, u, current.hash);
        AppendRecorded(trace, HeadSnapshot(headers, current, canon), v0, genesis, ops, u);
        trace := trace + [HeadSnapshot(headers, current, canon)];
      }
    }
  }
}
