/** The block tree shared by the chain components: headers keyed by hash, the
    parent walk from a header down to genesis, and the canonical number -> hash
    index that a path induces. */
module BlockTree {
  import opened Basics

  type Hash = nat

  /** The zero hash, which database reads return for "nothing here". */
  const NO_HASH: Hash := 0

  datatype Header = Header(hash: Hash, parent: Hash, number: nat, root: Hash, time: nat)

  type Store = map<Hash, Header>

  /** The stored headers and the head of a chain. */
  datatype View = View(headers: Store, head: Header)

  /** Headers are stored under their own hash, and block numbers fit a uint64
      with room for a successor. */
  ghost predicate Keyed(s: Store) {
    forall h :: h in s ==> h != NO_HASH && s[h].hash == h && s[h].number < MAX_U64
  }

  ghost predicate Has(s: Store, h: Header) {
    h.hash in s && s[h.hash] == h
  }

  /** Database read by hash and number: a header stored at another height is not found. */
  function GetHeader(s: Store, hash: Hash, number: nat): (r: Option<Header>)
    ensures r.Some? ==> r.value.number == number
  {
    if hash in s && s[hash].number == number then Some(s[hash]) else None
  }

  /** uint64 decrement, wrapping at zero. */
  function Pred(n: nat): nat {
    if n == 0 then MAX_U64 else n - 1
  }

  predicate HasParent(s: Store, h: Hash)
    requires h in s
  {
    s[h].number > 0 && s[h].parent in s && s[s[h].parent].number + 1 == s[h].number
  }

  /** A keyed store with one genesis in which every other header has its parent
      one height below. */
  ghost predicate Tree(s: Store, genesis: Hash) {
    && Keyed(s)
    && genesis in s
    && s[genesis].number == 0 && s[genesis].parent == NO_HASH
    && (forall h :: h in s && s[h].number == 0 ==> h == genesis)
    && (forall h {:trigger HasParent(s, h)} :: h in s && s[h].number > 0 ==> HasParent(s, h))
  }

  /** Ancestor path of h, oldest first, h last, as far as the store can follow it. */
  function Path(s: Store, h: Hash): (p: seq<Hash>)
    requires h in s
    decreases s[h].number
  {
    if HasParent(s, h) then Path(s, s[h].parent) + [h] else [h]
  }

  /** In a tree the path reaches genesis and holds exactly one header per height. */
  lemma {:induction false} PathShape(s: Store, g: Hash, h: Hash)
    requires Tree(s, g) && h in s
    ensures |Path(s, h)| == s[h].number + 1
    ensures Path(s, h)[0] == g && Path(s, h)[s[h].number] == h
    ensures forall i :: 0 <= i < |Path(s, h)| ==> Path(s, h)[i] in s && s[Path(s, h)[i]].number == i
    decreases s[h].number
  {
    if HasParent(s, h) {
      PathShape(s, g, s[h].parent);
    }
  }

  /** Consecutive elements of a path are parent and child. */
  lemma {:induction false} PathParent(s: Store, g: Hash, h: Hash, i: nat)
    requires Tree(s, g) && h in s && 0 < i <= s[h].number
    ensures |Path(s, h)| == s[h].number + 1 && Path(s, h)[i] in s
    ensures s[Path(s, h)[i]].parent == Path(s, h)[i - 1]
    decreases s[h].number
  {
    PathShape(s, g, h);
    PathShape(s, g, s[h].parent);
    if i < s[h].number {
      PathParent(s, g, s[h].parent, i);
    }
  }

  /** p is a chain of parents from genesis up to h, one header per height. */
  ghost predicate Lineage(s: Store, g: Hash, p: seq<Hash>, h: Hash) {
    && |p| > 0 && p[0] == g && p[|p| - 1] == h
    && (forall i :: 0 <= i < |p| ==> p[i] in s && s[p[i]].number == i)
    && (forall i, j {:trigger p[i], p[j]} :: 0 <= i < j < |p| && j == i + 1 ==> s[p[j]].parent == p[i])
  }

  lemma PathLineage(s: Store, g: Hash, h: Hash)
    requires Tree(s, g) && h in s
    ensures Lineage(s, g, Path(s, h), h)
  {
    PathShape(s, g, h);
    var p := Path(s, h);
    forall i, j | 0 <= i < j < |p| && j == i + 1
      ensures s[p[j]].parent == p[i]
    {
      PathParent(s, g, h, j);
    }
  }

  /** Two lineages that meet at some height agree on everything below it. */
  lemma {:induction false} LineagesMerge(s: Store, g: Hash, p: seq<Hash>, a: Hash, q: seq<Hash>, b: Hash, n: nat)
    requires Lineage(s, g, p, a) && Lineage(s, g, q, b)
    requires n < |p| && n < |q| && p[n] == q[n]
    ensures p[..n + 1] == q[..n + 1]
    decreases n
  {
    if n > 0 {
      assert p[n - 1] == q[n - 1];
      LineagesMerge(s, g, p, a, q, b, n - 1);
      assert p[..n + 1] == p[..n] + [p[n]];
      assert q[..n + 1] == q[..n] + [q[n]];
    }
  }

  /** Two paths share exactly their first fork blocks. */
  ghost predicate SplitAt(p: seq<Hash>, q: seq<Hash>, fork: nat) {
    && fork <= |p| && fork <= |q| && p[..fork] == q[..fork]
    && forall i :: fork <= i < |p| && i < |q| ==> p[i] != q[i]
  }

  lemma LineageUnique(s: Store, g: Hash, p: seq<Hash>, q: seq<Hash>, h: Hash)
    requires Lineage(s, g, p, h) && Lineage(s, g, q, h)
    ensures p == q
  {
    var n := |p| - 1;
    assert |q| == n + 1;
    LineagesMerge(s, g, p, h, q, h, n);
    assert p == p[..n + 1] && q == q[..n + 1];
  }

  lemma LineagePrefix(s: Store, g: Hash, p: seq<Hash>, h: Hash, n: nat)
    requires Lineage(s, g, p, h) && n < |p|
    ensures Lineage(s, g, p[..n + 1], p[n])
  {
    var r := p[..n + 1];
    forall i, j | 0 <= i < j < |r| && j == i + 1
      ensures s[r[j]].parent == r[i]
    {
      assert s[p[j]].parent == p[i];
    }
  }

  /** The path is the only lineage of h. */
  lemma LineageIsPath(s: Store, g: Hash, p: seq<Hash>, h: Hash)
    requires Tree(s, g) && h in s && Lineage(s, g, p, h)
    ensures p == Path(s, h)
  {
    assert Lineage(s, g, Path(s, h), h) by {
      PathLineage(s, g, h);
    }
    LineageUnique(s, g, p, Path(s, h), h);
  }

  /** Paths are closed under ancestors: the path of the n-th element is the prefix up to it. */
  lemma PathPrefix(s: Store, g: Hash, h: Hash, n: nat)
    requires Tree(s, g) && h in s && n <= s[h].number
    ensures n < |Path(s, h)| && Path(s, h)[n] in s
    ensures Path(s, Path(s, h)[n]) == Path(s, h)[..n + 1]
  {
    PathShape(s, g, h);
    var p := Path(s, h);
    assert Lineage(s, g, p[..n + 1], p[n]) by {
      PathLineage(s, g, h);
      LineagePrefix(s, g, p, h, n);
    }
    LineageIsPath(s, g, p[..n + 1], p[n]);
  }

  /** Growing the store does not change the path of a header whose ancestors it had. */
  lemma {:induction false} PathGrows(s: Store, g: Hash, t: Store, h: Hash)
    requires Tree(s, g) && h in s
    requires s.Keys <= t.Keys && forall k :: k in s ==> t[k] == s[k]
    ensures Path(t, h) == Path(s, h)
    decreases s[h].number
  {
    if HasParent(s, h) {
      assert HasParent(t, h);
      PathGrows(s, g, t, s[h].parent);
    }
  }

  /** Adding a child of a stored header to a tree gives a tree. */
  lemma TreeGrows(s: Store, g: Hash, h: Header)
    requires Tree(s, g) && h.hash != NO_HASH && h.number < MAX_U64 && (h.hash in s ==> s[h.hash] == h)
    requires h.parent in s && s[h.parent].number + 1 == h.number
    ensures Tree(s[h.hash := h], g)
  {
    var t := s[h.hash := h];
    forall k | k in t && t[k].number > 0
      ensures HasParent(t, k)
    {
      if k in s {
        assert HasParent(s, k);
      }
    }
  }

  /** A walk down path p that has gathered the headers above h and stands at h. */
  ghost predicate Walked(s: Store, p: seq<Hash>, chain: seq<Header>, h: Header) {
    && Has(s, h) && h.number < |p| && p[h.number] == h.hash
    && |chain| + h.number + 1 == |p|
    && forall i :: 0 <= i < |chain| ==> chain[i].hash == p[|p| - 1 - i] && Has(s, chain[i])
  }

  lemma WalkDown(s: Store, g: Hash, p: seq<Hash>, top: Hash, chain: seq<Header>, h: Header)
    requires Keyed(s) && Lineage(s, g, p, top) && Walked(s, p, chain, h) && h.number > 0
    ensures h.parent in s && GetHeader(s, h.parent, h.number - 1) == Some(s[h.parent])
    ensures Walked(s, p, chain + [h], s[h.parent])
  {
    assert h.parent == p[h.number - 1];
  }

  /** Two walks that stand at the same height, on paths that differ at all heights above. */
  ghost predicate Level(s: Store, p: seq<Hash>, q: seq<Hash>,
                        chainA: seq<Header>, a: Header, chainB: seq<Header>, b: Header) {
    && Walked(s, p, chainA, a) && Walked(s, q, chainB, b) && a.number == b.number
    && forall i :: a.number < i < |p| && i < |q| ==> p[i] != q[i]
  }

  /** On different blocks both walks step down. */
  lemma LevelDown(s: Store, g: Hash, p: seq<Hash>, topa: Hash, q: seq<Hash>, topb: Hash,
                  chainA: seq<Header>, a: Header, chainB: seq<Header>, b: Header)
    requires Keyed(s) && Lineage(s, g, p, topa) && Lineage(s, g, q, topb)
    requires Level(s, p, q, chainA, a, chainB, b) && a.hash != b.hash
    ensures a.number > 0 && a.parent in s && b.parent in s
    ensures GetHeader(s, a.parent, a.number - 1) == Some(s[a.parent])
    ensures GetHeader(s, b.parent, b.number - 1) == Some(s[b.parent])
    ensures Level(s, p, q, chainA + [a], s[a.parent], chainB + [b], s[b.parent])
  {
    WalkDown(s, g, p, topa, chainA, a);
    WalkDown(s, g, q, topb, chainB, b);
  }

  /** On the same block they have found where the paths split. */
  lemma LevelEnds(s: Store, g: Hash, p: seq<Hash>, topa: Hash, q: seq<Hash>, topb: Hash,
                  chainA: seq<Header>, a: Header, chainB: seq<Header>, b: Header)
    requires Lineage(s, g, p, topa) && Lineage(s, g, q, topb)
    requires Level(s, p, q, chainA, a, chainB, b) && a.hash == b.hash
    ensures SplitAt(p, q, a.number + 1)
  {
    LineagesMerge(s, g, p, topa, q, topb, a.number);
  }

  /** The number -> hash index of a path. */
  function Index(p: seq<Hash>): (m: map<nat, Hash>) {
    map i: nat | 0 <= i < |p| :: p[i]
  }

  /** Canonical hash read: the zero hash when there is no marker. */
  function ReadCanonical(canon: map<nat, Hash>, n: nat): Hash {
    if n in canon then canon[n] else NO_HASH
  }

  function Reverse<T>(xs: seq<T>): (r: seq<T>)
    ensures |r| == |xs|
    ensures forall i :: 0 <= i < |xs| ==> r[i] == xs[|xs| - 1 - i]
  {
    if xs == [] then [] else Reverse(xs[1..]) + [xs[0]]
  }

  lemma UpperBound(xs: set<nat>) returns (b: nat)
    ensures forall x :: x in xs ==> x < b
  {
    if xs == {} {
      b := 0;
    } else {
      var x :| x in xs;
      var b' := UpperBound(xs - {x});
      assert forall y :: y in xs ==> y == x || y in xs - {x};
      b := if b' > x then b' else x + 1;
    }
  }
}
