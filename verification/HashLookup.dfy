/** The block hash lookup of core/evm.go: a closure over a growing cache that answers
    "which ancestor has number n" during execution. */
module HashLookup {
  import opened Basics
  import opened BlockTree

  /** Uncached parent walk from (hash, number) down to height n; the zero hash when a header is missing. */
  function HashAt(s: Store, hash: Hash, number: nat, n: nat): Hash
    requires n <= number
    decreases number, n, hash, s
  {
    if number == n then hash
    else
      match GetHeader(s, hash, number)
      case None => NO_HASH
      case Some(h) => HashAt(s, h.parent, number - 1, n)
  }

  /** Hash of the ancestor of ref at height n. */
  function BlockHash(s: Store, ref: Header, n: nat): Hash {
    if ref.number <= n then NO_HASH else HashAt(s, ref.parent, ref.number - 1, n)
  }

  /** On a stored chain the walk gives exactly the ancestor path. */
  lemma {:induction false} WalkIsLineage(s: Store, g: Hash, p: seq<Hash>, top: Hash, m: nat, n: nat)
    requires Lineage(s, g, p, top) && n <= m < |p|
    ensures HashAt(s, p[m], m, n) == p[n]
    decreases m
  {
    if n < m {
      assert s[p[m]].parent == p[m - 1];
      WalkIsLineage(s, g, p, top, m - 1, n);
    }
  }

  lemma BlockHashIsAncestor(s: Store, g: Hash, ref: Header, n: nat)
    requires Tree(s, g) && Has(s, ref) && n < ref.number
    ensures n < |Path(s, ref.hash)| && BlockHash(s, ref, n) == Path(s, ref.hash)[n]
  {
    var p := Path(s, ref.hash);
    PathLineage(s, g, ref.hash);
    assert s[p[ref.number]].parent == p[ref.number - 1];
    WalkIsLineage(s, g, p, ref.hash, ref.number - 1, n);
  }

  class HashFn {
    const ref: Header
    const chain: Store
    var cache: seq<Hash>

    /** cache[i] is the ancestor at height ref.number - 1 - i, and the walk can resume at its end. */
    ghost predicate Valid()
      reads this
    {
      && |cache| <= ref.number
      && (forall i :: 0 <= i < |cache| ==> cache[i] == BlockHash(chain, ref, ref.number - 1 - i))
      && (cache != [] ==> Resumes(cache[|cache| - 1], ref.number - |cache|))
    }

    ghost predicate Resumes(hash: Hash, number: nat) {
      number < ref.number && forall n: nat :: n <= number ==> BlockHash(chain, ref, n) == HashAt(chain, hash, number, n)
    }

    /** The walk can resume at the parent too, whose hash is then the answer at its height. */
    lemma ResumesBelow(hash: Hash, number: nat, header: Header)
      requires number > 0 && Resumes(hash, number) && GetHeader(chain, hash, number) == Some(header)
      ensures header.number == number && Resumes(header.parent, number - 1)
      ensures BlockHash(chain, ref, number - 1) == header.parent
    {
      assert HashAt(chain, header.parent, number - 1, number - 1) == header.parent;
    }

    constructor (ref: Header, chain: Store)
      ensures Valid() && cache == [] && this.ref == ref && this.chain == chain
    {
      this.ref, this.chain, cache := ref, chain, [];
    }

    /** The answer never depends on earlier queries. */
    method Query(n: nat) returns (r: Hash)
      requires Valid()
      modifies this`cache
      ensures Valid() && old(cache) <= cache
      ensures r == BlockHash(chain, ref, n)
    {
      if ref.number <= n {
        return NO_HASH;
      }
      if |cache| == 0 {
        cache := [ref.parent];
      }
      var idx := ref.number - n - 1;
      if idx < |cache| {
        return cache[idx];
      }
      var hash, number := cache[|cache| - 1], ref.number - |cache|;
      while true
        invariant Valid() && old(cache) <= cache && cache != []
        invariant hash == cache[|cache| - 1] && number == ref.number - |cache| && n < number
        decreases number
      {
        assert Resumes(hash, number);
        var header := GetHeader(chain, hash, number);
        if header.None? {
          break;
        }
        ResumesBelow(hash, number, header.value);
        cache := cache + [header.value.parent];
        hash := header.value.parent;
        number := header.value.number - 1;
        if n == number {
          return hash;
        }
      }
      return NO_HASH;
    }

    /** Any sequence of queries, in any order, gets the uncached answers. */
    method QueryAll(ns: seq<nat>) returns (rs: seq<Hash>)
      requires Valid()
      modifies this`cache
      ensures Valid() && |rs| == |ns|
      ensures forall i :: 0 <= i < |ns| ==> rs[i] == BlockHash(chain, ref, ns[i])
    {
      rs := [];
      for i := 0 to |ns|
        invariant Valid() && |rs| == i
        invariant forall j :: 0 <= j < i ==> rs[j] == BlockHash(chain, ref, ns[j])
      {
        var r := Query(ns[i]);
        rs := rs + [r];
      }
    }
  }
}
