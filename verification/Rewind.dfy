/** rewindHashHead of core/blockchain.go: the search for a head whose state is available,
    optionally below a requested state root and bounded by rolled-back gas. */
module Rewind {
  import opened Basics
  import opened BlockTree

  const FULL_IMMUTABILITY_THRESHOLD: nat := 90000

  /** Everything the search reads: the stored chain, the state roots that can be opened, the gas charged
      per block, and the configured limits. The zero root asks for no threshold. */
  datatype Input = Input(chain: Store, genesis: Hash, states: set<Hash>, gas: map<Hash, nat>,
                         root: Hash, gasLimit: nat, pivot: Option<nat>, blocksLimit: nat)

  datatype Result = Result(head: Header, rootNumber: nat, rootFound: bool)

  /** Progress of the search: the block it stands on, the root threshold, and the first block with
      state that was skipped because the threshold was not crossed yet. */
  datatype Search = Search(head: Header, rootNumber: nat, rootFound: bool,
                           full: nat, fullHash: Hash, rolled: nat)

  ghost predicate Sane(inp: Input, head: Header) {
    Tree(inp.chain, inp.genesis) && Has(inp.chain, head)
  }

  ghost predicate Searching(inp: Input, st: Search) {
    Sane(inp, st.head) && (st.full != 0 ==> st.fullHash in inp.chain && inp.chain[st.fullHash].number == st.full)
  }

  /** Oldest block searched: the pivot, else a distance below the starting head. */
  function Limit(inp: Input, head: Header): nat {
    if inp.pivot.Some? then inp.pivot.value
    else if inp.blocksLimit > 0 && head.number > inp.blocksLimit then head.number - inp.blocksLimit
    else if head.number > FULL_IMMUTABILITY_THRESHOLD then head.number - FULL_IMMUTABILITY_THRESHOLD
    else 0
  }

  function GasOf(inp: Input, h: Header): nat {
    if h.hash in inp.gas then inp.gas[h.hash] else 0
  }

  /** The search from st.head down with the limit fixed. */
  function Loop(inp: Input, limit: nat, st: Search): Result
    requires Searching(inp, st)
    decreases st.head.number
  {
    assert st.head.number > 0 ==> HasParent(inp.chain, st.head.hash);
    var genesis := inp.chain[inp.genesis];
    var capped := inp.gasLimit > 0 && st.full != 0;
    var rolled := if capped then (st.rolled + GasOf(inp, st.head)) % TWO_64 else st.rolled;
    var crossed := !st.rootFound && st.head.root == inp.root;
    var found := st.rootFound || crossed;
    var number := if crossed then st.head.number else st.rootNumber;
    if capped && rolled >= inp.gasLimit then Result(inp.chain[st.fullHash], st.full, st.rootFound)
    else if st.head.number < limit then Result(genesis, number, found)
    else if st.head.root !in inp.states then
      if st.head.number <= 1 then Result(genesis, number, found)
      else Loop(inp, limit, Search(inp.chain[st.head.parent], number, found, st.full, st.fullHash, rolled))
    else if found || st.head.number == 0 then Result(st.head, number, found)
    else if st.full == 0 then
      Loop(inp, limit, Search(inp.chain[st.head.parent], number, found, st.head.number, st.head.hash, rolled))
    else
      Loop(inp, limit, Search(inp.chain[st.head.parent], number, found, st.full, st.fullHash, rolled))
  }

  function Start(inp: Input, head: Header): Search {
    Search(head, 0, inp.root == NO_HASH, 0, NO_HASH, 0)
  }

  function RewindHead(inp: Input, head: Header): Result
    requires Sane(inp, head)
  {
    Loop(inp, Limit(inp, head), Start(inp, head))
  }

  /** The search as the loop it is. */
  method RewindHashHead(inp: Input, head0: Header) returns (r: Result)
    requires Sane(inp, head0)
    ensures r == RewindHead(inp, head0)
  {
    var limit := 0;
    if inp.pivot.Some? {
      limit := inp.pivot.value;
    } else if head0.number > FULL_IMMUTABILITY_THRESHOLD {
      limit := head0.number - FULL_IMMUTABILITY_THRESHOLD;
    }
    if inp.pivot.None? && inp.blocksLimit > 0 && head0.number > inp.blocksLimit {
      limit := head0.number - inp.blocksLimit;
    }
    var head, rootNumber, rootFound := head0, 0, inp.root == NO_HASH;
    var full: nat, fullHash: Hash, rolled: nat := 0, NO_HASH, 0;
    while true
      invariant Searching(inp, Search(head, rootNumber, rootFound, full, fullHash, rolled))
      invariant Loop(inp, limit, Search(head, rootNumber, rootFound, full, fullHash, rolled)) == RewindHead(inp, head0)
      decreases head.number
    {
      assert head.number > 0 ==> HasParent(inp.chain, head.hash);
      if inp.gasLimit > 0 && full != 0 {
        rolled := (rolled + GasOf(inp, head)) % TWO_64;
        if rolled >= inp.gasLimit {
          rootNumber := full;
          return Result(inp.chain[fullHash], rootNumber, rootFound);
        }
      }
      if !rootFound && head.root == inp.root {
        rootFound, rootNumber := true, head.number;
      }
      if head.number < limit {
        return Result(inp.chain[inp.genesis], rootNumber, rootFound);
      }
      if head.root !in inp.states {
        var parent := GetHeader(inp.chain, head.parent, Pred(head.number));
        if parent.None? {
          return Result(inp.chain[inp.genesis], rootNumber, rootFound);
        }
        head := parent.value;
        if head.number == 0 {
          return Result(head, rootNumber, rootFound);
        }
      } else {
        if rootFound || head.number == 0 {
          return Result(head, rootNumber, rootFound);
        }
        if full == 0 {
          full, fullHash := head.number, head.hash;
        }
        head := inp.chain[head.parent];
      }
    }
  }

  ghost predicate HasStateAt(inp: Input, p: seq<Hash>, i: nat)
    requires i < |p|
  {
    p[i] in inp.chain && inp.chain[p[i]].root in inp.states
  }

  /** h is the highest block of p with state among the heights from 1 and limit up to top, or genesis
      when there is none. */
  ghost predicate Lands(inp: Input, p: seq<Hash>, limit: nat, top: nat, h: Header) {
    && top < |p| && h.number <= top && p[h.number] == h.hash
    && (h.number > 0 ==> h.number >= limit && HasStateAt(inp, p, h.number))
    && forall i :: h.number < i <= top && limit <= i ==> !HasStateAt(inp, p, i)
  }

  /** The search stands on path p. */
  ghost predicate On(inp: Input, p: seq<Hash>, st: Search) {
    && Searching(inp, st) && p != [] && Lineage(inp.chain, inp.genesis, p, p[|p| - 1])
    && st.head.number < |p| && p[st.head.number] == st.head.hash
  }

  lemma StepDown(inp: Input, p: seq<Hash>, st: Search)
    requires On(inp, p, st) && st.head.number > 0
    ensures st.head.parent == p[st.head.number - 1] && Has(inp.chain, inp.chain[st.head.parent])
  {
    assert inp.chain[p[st.head.number]].parent == p[st.head.number - 1];
  }

  /** Once the threshold is crossed without a skipped block, the search lands on the best state. */
  lemma {:induction false} CrossedSearch(inp: Input, limit: nat, st: Search, p: seq<Hash>)
    requires On(inp, p, st) && st.rootFound && (inp.gasLimit == 0 || st.full == 0)
    ensures var r := Loop(inp, limit, st);
            && r.rootFound && r.rootNumber == st.rootNumber
            && Lands(inp, p, limit, st.head.number, r.head)
    decreases st.head.number
  {
    if st.head.number > 0 {
      StepDown(inp, p, st);
      if st.head.number >= limit && st.head.root !in inp.states && st.head.number > 1 {
        CrossedSearch(inp, limit, st.(head := inp.chain[st.head.parent]), p);
      }
    }
  }

  /** Below a requested root and without gas cap: a reported crossing is the highest block with that
      root and the new head is the best state at or below it; without one the head is genesis. */
  lemma {:induction false} ThresholdSearch(inp: Input, limit: nat, st: Search, p: seq<Hash>)
    requires On(inp, p, st) && !st.rootFound && inp.gasLimit == 0
    ensures var r := Loop(inp, limit, st);
            if r.rootFound then
              && r.rootNumber <= st.head.number && inp.chain[p[r.rootNumber]].root == inp.root
              && (forall i :: r.rootNumber < i <= st.head.number ==> inp.chain[p[i]].root != inp.root)
              && Lands(inp, p, limit, r.rootNumber, r.head)
            else r.head == inp.chain[inp.genesis]
    decreases st.head.number
  {
    assert inp.chain[p[st.head.number]] == st.head;
    if st.head.number > 0 {
      StepDown(inp, p, st);
      var parent := inp.chain[st.head.parent];
      if st.head.root == inp.root {
        if st.head.number >= limit && st.head.root !in inp.states && st.head.number > 1 {
          CrossedSearch(inp, limit, Search(parent, st.head.number, true, st.full, st.fullHash, st.rolled), p);
        }
      } else if st.head.number >= limit && (st.head.root in inp.states || st.head.number > 1) {
        var full := if st.full == 0 && st.head.root in inp.states then st.head.number else st.full;
        var fullHash := if st.full == 0 && st.head.root in inp.states then st.head.hash else st.fullHash;
        ThresholdSearch(inp, limit, Search(parent, st.rootNumber, false, full, fullHash, st.rolled), p);
      }
    }
  }

  /** Whatever the limits, the result is an ancestor of the start that has state or is genesis. */
  lemma {:induction false} SearchStaysSafe(inp: Input, limit: nat, st: Search, p: seq<Hash>)
    requires On(inp, p, st)
    requires st.full != 0 ==> st.full < |p| && p[st.full] == st.fullHash && HasStateAt(inp, p, st.full)
    ensures var r := Loop(inp, limit, st);
            && r.head.number < |p| && p[r.head.number] == r.head.hash
            && (r.head.root in inp.states || r.head == inp.chain[inp.genesis])
    decreases st.head.number
  {
    if st.head.number > 0 {
      StepDown(inp, p, st);
      var parent := inp.chain[st.head.parent];
      var capped := inp.gasLimit > 0 && st.full != 0;
      var rolled := if capped then (st.rolled + GasOf(inp, st.head)) % TWO_64 else st.rolled;
      var crossed := !st.rootFound && st.head.root == inp.root;
      var found := st.rootFound || crossed;
      var number := if crossed then st.head.number else st.rootNumber;
      var skip := st.full == 0 && st.head.root in inp.states;
      var full := if skip then st.head.number else st.full;
      var fullHash := if skip then st.head.hash else st.fullHash;
      SearchStaysSafe(inp, limit, Search(parent, number, found, full, fullHash, rolled), p);
    }
  }

  lemma StartsOn(inp: Input, head: Header)
    requires Sane(inp, head)
    ensures On(inp, Path(inp.chain, head.hash), Start(inp, head))
    ensures |Path(inp.chain, head.hash)| == head.number + 1
  {
    PathLineage(inp.chain, inp.genesis, head.hash);
  }

  /** The rewound head is an ancestor of the old one and has state, or is genesis. */
  lemma RewindSafe(inp: Input, head: Header)
    requires Sane(inp, head)
    ensures var r, p := RewindHead(inp, head), Path(inp.chain, head.hash);
            && r.head.number < |p| && p[r.head.number] == r.head.hash
            && (r.head.root in inp.states || r.head == inp.chain[inp.genesis])
  {
    StartsOn(inp, head);
    SearchStaysSafe(inp, Limit(inp, head), Start(inp, head), Path(inp.chain, head.hash));
  }

  /** With no root requested the result is the highest ancestor with state within the limit, else genesis. */
  lemma RewindWithoutRoot(inp: Input, head: Header)
    requires Sane(inp, head) && inp.root == NO_HASH
    ensures var r := RewindHead(inp, head);
            && r.rootFound && r.rootNumber == 0
            && Lands(inp, Path(inp.chain, head.hash), Limit(inp, head), head.number, r.head)
  {
    StartsOn(inp, head);
    CrossedSearch(inp, Limit(inp, head), Start(inp, head), Path(inp.chain, head.hash));
  }

  /** With a root requested and no gas cap. */
  lemma RewindBelowRoot(inp: Input, head: Header)
    requires Sane(inp, head) && inp.root != NO_HASH && inp.gasLimit == 0
    ensures var r, p := RewindHead(inp, head), Path(inp.chain, head.hash);
            if r.rootFound then
              && r.rootNumber < |p| && p[r.rootNumber] in inp.chain && inp.chain[p[r.rootNumber]].root == inp.root
              && (forall i :: r.rootNumber < i < |p| ==> p[i] in inp.chain && inp.chain[p[i]].root != inp.root)
              && Lands(inp, p, Limit(inp, head), r.rootNumber, r.head)
            else r.head == inp.chain[inp.genesis]
  {
    StartsOn(inp, head);
    ThresholdSearch(inp, Limit(inp, head), Start(inp, head), Path(inp.chain, head.hash));
  }

  /** A reported crossing names an ancestor with the requested root, at or above the new head. */
  ghost predicate CrossingExact(inp: Input, head: Header)
    requires Sane(inp, head)
  {
    var r, p := RewindHead(inp, head), Path(inp.chain, head.hash);
    r.rootFound ==>
      && r.head.number <= r.rootNumber < |p|
      && p[r.rootNumber] in inp.chain && inp.chain[p[r.rootNumber]].root == inp.root
  }

  // The gas cap.

  /** Gas of the blocks from lo up to but not including hi, added up from the top as a uint64. */
  ghost function Rolled(inp: Input, p: seq<Hash>, lo: nat, hi: nat): nat
    requires hi <= |p|
    decreases if lo < hi then hi - lo else 0, inp, p
  {
    if lo >= hi then 0
    else (Rolled(inp, p, lo + 1, hi) + if p[lo] in inp.gas then inp.gas[p[lo]] else 0) % TWO_64
  }

  ghost predicate RootAt(inp: Input, p: seq<Hash>, i: nat)
    requires i < |p|
  {
    p[i] in inp.chain && inp.chain[p[i]].root == inp.root
  }

  /** Below a block with state at height full that was skipped, and from height top down, the search meets
      the requested root first at height root, and the gas rolled back since full first reaches the cap
      at height cap, strictly below root, before a state, the limit or genesis ends the search. */
  ghost predicate Misled(inp: Input, p: seq<Hash>, limit: nat, top: nat, full: nat, root: nat, cap: nat) {
    && 1 <= cap < root <= top < full < |p| && limit <= cap + 1
    && RootAt(inp, p, root) && (forall i :: root < i <= top ==> !RootAt(inp, p, i))
    && Rolled(inp, p, cap, full) >= inp.gasLimit
    && (forall i :: cap < i <= top ==> Rolled(inp, p, i, full) < inp.gasLimit)
    && (forall i :: cap < i <= root ==> !HasStateAt(inp, p, i))
  }

  /** full is the height of the highest block with state on p, which does not have the requested root, nor
      does any block above it. */
  ghost predicate Skipped(inp: Input, p: seq<Hash>, limit: nat, full: nat) {
    && 0 < full < |p| && limit <= full && HasStateAt(inp, p, full)
    && (forall i :: full < i < |p| ==> !HasStateAt(inp, p, i))
    && (forall i :: full <= i < |p| ==> !RootAt(inp, p, i))
  }

  ghost predicate MisledBelow(inp: Input, p: seq<Hash>, limit: nat, top: nat, full: nat) {
    exists root: nat, cap: nat :: Misled(inp, p, limit, top, full, root, cap)
  }

  ghost predicate MisledFrom(inp: Input, p: seq<Hash>, limit: nat, full: nat) {
    Skipped(inp, p, limit, full) && MisledBelow(inp, p, limit, full - 1, full)
  }

  /** The exact inputs on which the capped search reports a wrong crossing. */
  ghost predicate CapMisleads(inp: Input, head: Header)
    requires Has(inp.chain, head)
  {
    var p, limit := Path(inp.chain, head.hash), Limit(inp, head);
    inp.gasLimit > 0
    && exists full: nat :: MisledFrom(inp, p, limit, full)
  }

  /** The search has skipped the state at height full and rolled back the blocks between. */
  ghost predicate Rolling(inp: Input, p: seq<Hash>, st: Search, full: nat) {
    && On(inp, p, st) && inp.gasLimit > 0 && st.head.number < full < |p| && st.full == full && st.fullHash == p[full]
    && st.rolled == Rolled(inp, p, st.head.number + 1, full)
  }

  /** The gas cap is reached at height cap, and nothing ends the search from height top before. */
  ghost predicate CapReached(inp: Input, p: seq<Hash>, limit: nat, top: nat, full: nat, cap: nat) {
    && 1 <= cap <= top < full < |p| && (cap < top ==> limit <= cap + 1)
    && Rolled(inp, p, cap, full) >= inp.gasLimit
    && forall i :: cap < i <= top ==> Rolled(inp, p, i, full) < inp.gasLimit && !HasStateAt(inp, p, i)
  }

  ghost predicate CapHits(inp: Input, p: seq<Hash>, limit: nat, top: nat, full: nat) {
    exists cap: nat :: CapReached(inp, p, limit, top, full, cap)
  }

  /** One step of a search that rolls back gas and neither meets the cap nor ends. */
  lemma RollOn(inp: Input, limit: nat, st: Search, p: seq<Hash>, full: nat)
    requires Rolling(inp, p, st, full) && st.head.number >= 1
    ensures st.head == inp.chain[p[st.head.number]] && st.head.parent in inp.chain
    ensures (st.rolled + GasOf(inp, st.head)) % TWO_64 == Rolled(inp, p, st.head.number, full)
    ensures var next := st.(head := inp.chain[st.head.parent], rolled := Rolled(inp, p, st.head.number, full));
            Rolling(inp, p, next, full) && next.head.number + 1 == st.head.number
  {
    StepDown(inp, p, st);
  }

  lemma CapBelow(inp: Input, p: seq<Hash>, limit: nat, h: nat, full: nat, cap: nat)
    requires 1 <= h < full < |p|
    ensures CapReached(inp, p, limit, h, full, cap) <==>
            if cap == h then Rolled(inp, p, h, full) >= inp.gasLimit
            else Rolled(inp, p, h, full) < inp.gasLimit && !HasStateAt(inp, p, h) && limit <= h
                 && CapReached(inp, p, limit, h - 1, full, cap)
  {
  }

  lemma CapStep(inp: Input, p: seq<Hash>, limit: nat, h: nat, full: nat)
    requires 1 <= h < full < |p| && Rolled(inp, p, h, full) < inp.gasLimit
    ensures CapHits(inp, p, limit, h, full) <==>
            !HasStateAt(inp, p, h) && limit <= h && CapHits(inp, p, limit, h - 1, full)
  {
    if CapHits(inp, p, limit, h, full) {
      var cap: nat :| CapReached(inp, p, limit, h, full, cap);
      CapBelow(inp, p, limit, h, full, cap);
    }
    if !HasStateAt(inp, p, h) && limit <= h && CapHits(inp, p, limit, h - 1, full) {
      var cap: nat :| CapReached(inp, p, limit, h - 1, full, cap);
      CapBelow(inp, p, limit, h, full, cap);
    }
  }

  /** After the crossing: the capped exit forgets where it was, any other exit keeps it. */
  lemma {:induction false} CrossedCapped(inp: Input, limit: nat, st: Search, p: seq<Hash>, full: nat)
    requires Rolling(inp, p, st, full) && st.rootFound && st.head.number >= 1
    ensures var r := Loop(inp, limit, st);
            if CapHits(inp, p, limit, st.head.number, full)
            then r == Result(inp.chain[p[full]], full, true)
            else r.rootFound && r.rootNumber == st.rootNumber && r.head.number <= st.head.number
    decreases st.head.number
  {
    var h := st.head.number;
    RollOn(inp, limit, st, p, full);
    if Rolled(inp, p, h, full) >= inp.gasLimit {
      assert CapReached(inp, p, limit, h, full, h);
    } else if h >= limit && st.head.root !in inp.states && h > 1 {
      var next := st.(head := inp.chain[st.head.parent], rolled := Rolled(inp, p, h, full));
      assert Loop(inp, limit, st) == Loop(inp, limit, next);
      CrossedCapped(inp, limit, next, p, full);
      CapStep(inp, p, limit, h, full);
    } else {
      CapStep(inp, p, limit, h, full);
      assert !CapHits(inp, p, limit, h, full);
      assert inp.chain[inp.genesis].number == 0;
    }
  }

  /** Meeting the root at height h. */
  lemma MisledHere(inp: Input, p: seq<Hash>, limit: nat, h: nat, full: nat)
    requires 1 <= h < full < |p| && RootAt(inp, p, h)
    ensures MisledBelow(inp, p, limit, h, full) <==>
            && Rolled(inp, p, h, full) < inp.gasLimit && limit <= h && !HasStateAt(inp, p, h) && h > 1
            && CapHits(inp, p, limit, h - 1, full)
  {
    if MisledBelow(inp, p, limit, h, full) {
      var root: nat, cap: nat :| Misled(inp, p, limit, h, full, root, cap);
      assert root == h;
      assert CapReached(inp, p, limit, h - 1, full, cap);
    }
    if Rolled(inp, p, h, full) < inp.gasLimit && limit <= h && !HasStateAt(inp, p, h) && h > 1
       && CapHits(inp, p, limit, h - 1, full) {
      var cap: nat :| CapReached(inp, p, limit, h - 1, full, cap);
      assert Misled(inp, p, limit, h, full, h, cap);
    }
  }

  /** Passing height h without meeting the root. */
  lemma MisledDown(inp: Input, p: seq<Hash>, limit: nat, h: nat, full: nat)
    requires 1 <= h < full < |p| && !RootAt(inp, p, h)
    ensures MisledBelow(inp, p, limit, h, full) <==>
            Rolled(inp, p, h, full) < inp.gasLimit && limit <= h && h > 1 && MisledBelow(inp, p, limit, h - 1, full)
  {
    if MisledBelow(inp, p, limit, h, full) {
      var root: nat, cap: nat :| Misled(inp, p, limit, h, full, root, cap);
      assert root != h;
      assert Misled(inp, p, limit, h - 1, full, root, cap);
    }
    if Rolled(inp, p, h, full) < inp.gasLimit && limit <= h && h > 1 && MisledBelow(inp, p, limit, h - 1, full) {
      var root: nat, cap: nat :| Misled(inp, p, limit, h - 1, full, root, cap);
      assert Misled(inp, p, limit, h, full, root, cap);
    }
  }

  /** A reported crossing names a height up to top with the requested root, at or above the new head. */
  ghost predicate Reports(inp: Input, p: seq<Hash>, top: nat, r: Result) {
    r.rootFound ==> r.head.number <= r.rootNumber <= top < |p| && RootAt(inp, p, r.rootNumber)
  }

  /** Between the skipped block and the root. */
  lemma {:induction false} SkippedCapped(inp: Input, limit: nat, st: Search, p: seq<Hash>, full: nat)
    requires Rolling(inp, p, st, full) && !st.rootFound
    ensures var r := Loop(inp, limit, st);
            if MisledBelow(inp, p, limit, st.head.number, full) then r == Result(inp.chain[p[full]], full, true)
            else Reports(inp, p, st.head.number, r)
    decreases st.head.number
  {
    var h := st.head.number;
    assert inp.chain[p[h]] == st.head;
    assert inp.chain[inp.genesis].number == 0;
    if h > 0 {
      RollOn(inp, limit, st, p, full);
      var next := st.(head := inp.chain[st.head.parent], rolled := Rolled(inp, p, h, full));
      if RootAt(inp, p, h) {
        MisledHere(inp, p, limit, h, full);
        if Rolled(inp, p, h, full) < inp.gasLimit && h >= limit && st.head.root !in inp.states && h > 1 {
          var crossed := next.(rootFound := true, rootNumber := h);
          assert Loop(inp, limit, st) == Loop(inp, limit, crossed);
          CrossedCapped(inp, limit, crossed, p, full);
        }
      } else {
        MisledDown(inp, p, limit, h, full);
        if Rolled(inp, p, h, full) < inp.gasLimit && h >= limit && (st.head.root in inp.states || h > 1) {
          assert Loop(inp, limit, st) == Loop(inp, limit, next);
          SkippedCapped(inp, limit, next, p, full);
        }
      }
    }
  }

  /** Nothing skipped yet: no block above has a state or the root. */
  ghost predicate Clear(inp: Input, p: seq<Hash>, h: nat) {
    forall i :: h < i < |p| ==> !HasStateAt(inp, p, i) && !RootAt(inp, p, i)
  }

  /** From the start of the search: either some skipped block misleads it, or the report is right. */
  lemma {:induction false} FreshCapped(inp: Input, limit: nat, st: Search, p: seq<Hash>)
    requires On(inp, p, st) && inp.gasLimit > 0 && !st.rootFound && st.full == 0 && st.rolled == 0
    requires Clear(inp, p, st.head.number)
    ensures forall full: nat :: MisledFrom(inp, p, limit, full) ==>
              Loop(inp, limit, st) == Result(inp.chain[p[full]], full, true)
    ensures (exists full: nat :: MisledFrom(inp, p, limit, full))
            || Reports(inp, p, st.head.number, Loop(inp, limit, st))
    decreases st.head.number
  {
    var h := st.head.number;
    assert inp.chain[p[h]] == st.head;
    assert inp.chain[inp.genesis].number == 0;
    forall full: nat | MisledFrom(inp, p, limit, full)
      ensures full <= h && limit <= h && !RootAt(inp, p, h) && h > 0 && (HasStateAt(inp, p, h) ==> full == h)
    {
      assert HasStateAt(inp, p, full);
    }
    if h > 0 && h >= limit {
      StepDown(inp, p, st);
      var next := st.(head := inp.chain[st.head.parent]);
      if RootAt(inp, p, h) {
        if st.head.root !in inp.states && h > 1 {
          var crossed := next.(rootFound := true, rootNumber := h);
          assert Loop(inp, limit, st) == Loop(inp, limit, crossed);
          CrossedSearch(inp, limit, crossed, p);
        }
      } else if st.head.root in inp.states {
        var skip := next.(full := h, fullHash := st.head.hash);
        assert Loop(inp, limit, st) == Loop(inp, limit, skip);
        SkippedCapped(inp, limit, skip, p, h);
        assert Skipped(inp, p, limit, h);
        assert MisledFrom(inp, p, limit, h) <==> MisledBelow(inp, p, limit, h - 1, h);
      } else if h > 1 {
        assert Loop(inp, limit, st) == Loop(inp, limit, next);
        FreshCapped(inp, limit, next, p);
      }
    }
  }

  /** With a root requested, a reported crossing is right exactly when no skipped block misleads the
      capped search. */
  lemma CrossingExactIff(inp: Input, head: Header)
    requires Sane(inp, head) && inp.root != NO_HASH
    ensures CrossingExact(inp, head) <==> !CapMisleads(inp, head)
  {
    var p, limit := Path(inp.chain, head.hash), Limit(inp, head);
    StartsOn(inp, head);
    if inp.gasLimit == 0 {
      RewindBelowRoot(inp, head);
    } else {
      FreshCapped(inp, limit, Start(inp, head), p);
      if CapMisleads(inp, head) {
        var full: nat :| MisledFrom(inp, p, limit, full);
        assert !RootAt(inp, p, full);
      }
    }
  }

  /** A four-block chain, top block with state, whose requested root lies one below the top. */
  function CapExample(g: nat): Input {
    Input(map[1 := Header(1, 0, 0, 10, 0), 2 := Header(2, 1, 1, 11, 0),
              3 := Header(3, 2, 2, 12, 0), 4 := Header(4, 3, 3, 13, 0)],
          1, {13}, map[2 := g], 12, g, None, 0)
  }

  /** Under the cap the search falls back to the skipped top block but still reports the root as
      crossed there. */
  lemma CapMisreports(g: nat)
    requires 0 < g < TWO_64
    ensures Sane(CapExample(g), CapExample(g).chain[4]) && CapExample(g).root != NO_HASH
    ensures !CrossingExact(CapExample(g), CapExample(g).chain[4])
  {
    var inp := CapExample(g);
    var c := inp.chain;
    assert HasParent(c, 2) && HasParent(c, 3) && HasParent(c, 4);
    var r := Loop(inp, 0, Search(c[2], 2, true, 3, 4, 0));
    assert r == Result(c[4], 3, true);
    assert Loop(inp, 0, Search(c[3], 0, false, 3, 4, 0)) == r;
    assert Loop(inp, 0, Start(inp, c[4])) == r;
    PathShape(c, 1, 4);
  }
}
