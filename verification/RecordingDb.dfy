/** State references of arbitrum/recordingdb.go and arbitrum/recreatestate.go: opening the state of
    a header, or re-executing blocks from the closest ancestor whose state opens, while holding one
    trie reference at a time. */
module RecordingDb {
  import opened Basics
  import opened BlockTree

  /** Everything outside that decides a run: the stored headers, the headers whose state opens, the block
      found at each number, the blocks whose execution, commit and reopening succeed, and whether the
      recording itself can be opened. */
  datatype World = World(chain: Store, genesisNumber: nat, opens: set<Hash>, blocks: map<nat, Hash>,
                         executes: set<Hash>, commits: set<Hash>, reopens: set<Hash>, records: bool)

  /** Inspection number tick of a context that is cancelled at a given inspection, if ever. */
  predicate Cancelled(at: Option<nat>, tick: nat) {
    at.Some? && at.value <= tick
  }

  class Context {
    const at: Option<nat>
    var tick: nat

    constructor (at: Option<nat>)
      ensures this.at == at && tick == 0
    {
      this.at, tick := at, 0;
    }

    method Err() returns (err: bool)
      modifies this
      ensures tick == old(tick) + 1 && err == Cancelled(at, old(tick))
    {
      err := Cancelled(at, tick);
      tick := tick + 1;
    }
  }

  /** A header with an open state and the number of the next inspection. */
  datatype Lookup = Found(header: Header, tick: nat) | NotFound

  /** The search for the closest ancestor whose state opens, one inspection per header. */
  function Search(w: World, at: Option<nat>, h: Header, tick: nat): (r: Lookup)
    requires Keyed(w.chain) && Has(w.chain, h)
    ensures r.Found? ==> r.header == h || r.header.number < h.number
    decreases h.number, tick, at, w
  {
    if Cancelled(at, tick) then NotFound
    else if h.hash in w.opens then Found(h, tick + 1)
    else if h.number <= w.genesisNumber then NotFound
    else
      match GetHeader(w.chain, h.parent, Pred(h.number))
      case None => NotFound
      case Some(parent) => Search(w, at, parent, tick + 1)
  }

  /** The block at a number, if it can be re-executed on top of prev. */
  function Executed(w: World, number: nat, prev: Hash): Option<Header> {
    if number !in w.blocks then None
    else
      match GetHeader(w.chain, w.blocks[number], number)
      case None => None
      case Some(block) => if block.parent == prev && block.hash in w.executes then Some(block) else None
  }

  datatype Advance = Next(block: Header) | Failed | NotReopened(root: Hash)

  /** One round of the re-execution: execute, commit and open the block at a number. */
  function AdvanceTo(w: World, number: nat, prev: Hash): Advance {
    match Executed(w, number, prev)
    case None => Failed
    case Some(block) =>
      if block.hash !in w.commits then Failed
      else if block.hash !in w.reopens then NotReopened(block.root)
      else Next(block)
  }

  datatype Rebuilt = Built | Stopped | Unopened(root: Hash)

  /** Re-execution of the blocks from a number up to a header. */
  function Rebuild(w: World, at: Option<nat>, header: Header, number: nat, prev: Hash, tick: nat): Rebuilt
    requires number <= header.number
    decreases header.number - number, tick, prev, at, w
  {
    if Cancelled(at, tick) then Stopped
    else
      match AdvanceTo(w, number, prev)
      case Failed => Stopped
      case NotReopened(root) => Unopened(root)
      case Next(block) =>
        if number >= header.number then if block.hash == header.hash then Built else Stopped
        else Rebuild(w, at, header, number + 1, block.hash, tick + 1)
  }

  /** The reference lost by a re-execution. */
  function Lost(r: Rebuilt): Option<Hash> {
    if r.Unopened? then Some(r.root) else None
  }

  /** Success, and the root of a reference left behind besides the one a success holds. */
  datatype Outcome = Outcome(ok: bool, lost: Option<Hash>)

  /** What follows the search. */
  function Resume(w: World, at: Option<nat>, header: Header, found: Lookup): Outcome
    requires found.Found? ==> found.header == header || found.header.number < header.number
  {
    match found
    case NotFound => Outcome(false, None)
    case Found(current, next) =>
      if Cancelled(at, next) then Outcome(false, Some(current.root))
      else if current == header then Outcome(true, None)
      else
        var r := Rebuild(w, at, header, current.number + 1, current.hash, next + 1);
        Outcome(r.Built?, Lost(r))
  }

  function Run(w: World, at: Option<nat>, header: Header, tick: nat): Outcome
    requires Keyed(w.chain) && Has(w.chain, header)
  {
    Resume(w, at, header, Search(w, at, header, tick))
  }

  // When references are left behind.

  /** On the target's path p the state of p[m] opens, none above does, and the search gets down to it. */
  ghost predicate OpensFirst(w: World, p: seq<Hash>, m: nat) {
    && m < |p| && p[m] in w.chain && p[m] in w.opens
    && forall j :: m < j < |p| ==> p[j] in w.chain && p[j] !in w.opens && w.chain[p[j]].number > w.genesisNumber
  }

  /** Number of the inspection right after the state of p[m] was opened. */
  function AfterOpen(p: seq<Hash>, m: nat, tick: nat): nat
    requires m < |p|
  {
    tick + |p| - m
  }

  /** The block the next one has to stand on. */
  ghost function Before(w: World, base: Header, n: nat): Hash
    requires base.number < n && (n > base.number + 1 ==> n - 1 in w.blocks)
  {
    if n == base.number + 1 then base.hash else w.blocks[n - 1]
  }

  /** Block n can be re-executed and committed on top of the block before it; the first one above base
      stands on base. */
  ghost predicate Extends(w: World, base: Header, n: nat) {
    && base.number < n && (n > base.number + 1 ==> n - 1 in w.blocks)
    && var block := Executed(w, n, Before(w, base, n));
    block.Some? && block.value.hash in w.commits
  }

  /** Above base, opened before inspection tick, block n is reached, re-executed and committed, and cannot
      be opened again. */
  ghost predicate ReopenFails(w: World, at: Option<nat>, header: Header, base: Header, tick: nat, n: nat) {
    && base.number < n <= header.number && !Cancelled(at, tick + n - base.number)
    && (forall i :: base.number < i <= n ==> Extends(w, base, i))
    && (forall i :: base.number < i < n ==> i in w.blocks && w.blocks[i] in w.reopens)
    && n in w.blocks && w.blocks[n] !in w.reopens
  }

  /** Above base every block up to the header is re-executed, committed and opened again. */
  ghost predicate Recreates(w: World, at: Option<nat>, header: Header, base: Header, tick: nat) {
    && base.number < header.number && !Cancelled(at, tick + header.number - base.number)
    && (forall i :: base.number < i <= header.number ==> Extends(w, base, i))
    && (forall i :: base.number < i <= header.number ==> i in w.blocks && w.blocks[i] in w.reopens)
    && w.blocks[header.number] == header.hash
  }

  /** Opening p[m] leaks: the context is cancelled between the opening and its return, or a state
      committed on top of it cannot be opened. */
  ghost predicate LeaksFrom(w: World, at: Option<nat>, header: Header, p: seq<Hash>, m: nat, tick: nat)
    requires m < |p| && p[m] in w.chain
  {
    || at == Some(AfterOpen(p, m, tick))
    || (m + 1 < |p| && exists n :: ReopenFails(w, at, header, w.chain[p[m]], AfterOpen(p, m, tick), n))
  }

  /** The exact inputs that leave a reference behind. */
  ghost predicate Leaks(w: World, at: Option<nat>, header: Header, tick: nat)
    requires Has(w.chain, header)
  {
    var p := Path(w.chain, header.hash);
    exists m: nat :: OpensFirst(w, p, m) && LeaksFrom(w, at, header, p, m, tick)
  }

  /** The exact inputs that succeed: the state itself opens, or it is recreated from the closest ancestor
      whose state opens. */
  ghost predicate Succeeds(w: World, at: Option<nat>, header: Header, tick: nat)
    requires Has(w.chain, header)
  {
    var p := Path(w.chain, header.hash);
    exists m: nat :: OpensFirst(w, p, m) &&
                if m + 1 == |p| then !Cancelled(at, AfterOpen(p, m, tick))
                else Recreates(w, at, header, w.chain[p[m]], AfterOpen(p, m, tick))
  }

  lemma FirstUnique(w: World, p: seq<Hash>, m: nat, k: nat)
    requires OpensFirst(w, p, m) && OpensFirst(w, p, k)
    ensures m == k
  {
  }

  /** The search ended on the first ancestor that opens, or was cancelled before. */
  ghost predicate SearchEnds(w: World, at: Option<nat>, p: seq<Hash>, tick: nat, r: Lookup) {
    match r
    case Found(header, next) =>
      exists m: nat :: OpensFirst(w, p, m) && header == w.chain[p[m]] && next == AfterOpen(p, m, tick)
                       && !Cancelled(at, next - 1)
    case NotFound => forall m: nat :: OpensFirst(w, p, m) ==> Cancelled(at, AfterOpen(p, m, tick) - 1)
  }

  lemma SearchStep(w: World, p: seq<Hash>, q: seq<Hash>, h: Header)
    requires p == q + [h.hash] && Has(w.chain, h) && h.hash !in w.opens && h.number > w.genesisNumber
    ensures forall m: nat :: OpensFirst(w, p, m) <==> OpensFirst(w, q, m)
  {
    forall m: nat
      ensures OpensFirst(w, p, m) <==> OpensFirst(w, q, m)
    {
      if OpensFirst(w, p, m) {
        assert p[m] != h.hash;
        assert forall j :: m < j < |q| ==> q[j] == p[j];
      }
      if OpensFirst(w, q, m) {
        assert forall j :: m < j < |q| ==> q[j] == p[j];
      }
    }
  }

  lemma SearchOneDown(w: World, at: Option<nat>, p: seq<Hash>, q: seq<Hash>, h: Header, tick: nat, r: Lookup)
    requires p == q + [h.hash] && Has(w.chain, h) && h.hash !in w.opens && h.number > w.genesisNumber
    requires SearchEnds(w, at, q, tick + 1, r)
    ensures SearchEnds(w, at, p, tick, r)
  {
    SearchStep(w, p, q, h);
    if r.Found? {
      var m: nat :| OpensFirst(w, q, m) && r.header == w.chain[q[m]] && r.tick == AfterOpen(q, m, tick + 1);
      assert OpensFirst(w, p, m) && p[m] == q[m];
    }
  }

  lemma {:induction false} SearchMeaning(w: World, at: Option<nat>, h: Header, tick: nat)
    requires Keyed(w.chain) && Has(w.chain, h)
    ensures SearchEnds(w, at, Path(w.chain, h.hash), tick, Search(w, at, h, tick))
    decreases h.number, tick, at, w
  {
    var p := Path(w.chain, h.hash);
    var top := |p| - 1;
    assert p[top] == h.hash;
    var parent := GetHeader(w.chain, h.parent, Pred(h.number));
    assert parent.Some? <==> HasParent(w.chain, h.hash);
    if Cancelled(at, tick) {
    } else if h.hash in w.opens {
      assert OpensFirst(w, p, top);
    } else if h.number > w.genesisNumber && parent.Some? {
      SearchMeaning(w, at, parent.value, tick + 1);
      SearchOneDown(w, at, p, Path(w.chain, h.parent), h, tick, Search(w, at, parent.value, tick + 1));
    } else {
      forall m: nat
        ensures !OpensFirst(w, p, m)
      {
        assert m < top ==> m < top < |p|;
      }
    }
  }

  /** Re-execution from a block whose predecessors above base are done. */
  lemma {:induction false} RebuildMeaning(w: World, at: Option<nat>, header: Header, base: Header, n: nat, tick: nat)
    requires Keyed(w.chain) && base.number < n <= header.number
    requires forall i :: base.number < i < n ==> Extends(w, base, i)
    requires forall i :: base.number < i < n ==> i in w.blocks && w.blocks[i] in w.reopens
    ensures var r := Rebuild(w, at, header, n, Before(w, base, n), tick + n - base.number);
            && (r.Unopened? <==> exists k :: ReopenFails(w, at, header, base, tick, k))
            && (r.Built? <==> Recreates(w, at, header, base, tick))
    decreases header.number - n
  {
    var t, prev := tick + n - base.number, Before(w, base, n);
    var r := Rebuild(w, at, header, n, prev, t);
    var block := Executed(w, n, prev);
    if Cancelled(at, t) || block.None? || block.value.hash !in w.commits {
      assert !Cancelled(at, t) ==> !Extends(w, base, n);
    } else {
      assert block.value.hash == w.blocks[n] && Extends(w, base, n);
      if block.value.hash !in w.reopens {
        assert ReopenFails(w, at, header, base, tick, n);
      } else if n < header.number {
        RebuildMeaning(w, at, header, base, n + 1, tick);
      }
    }
  }

  lemma NotFoundMeaning(w: World, at: Option<nat>, header: Header, tick: nat, p: seq<Hash>)
    requires Has(w.chain, header) && p == Path(w.chain, header.hash)
    requires forall m: nat :: OpensFirst(w, p, m) ==> Cancelled(at, AfterOpen(p, m, tick) - 1)
    ensures !Succeeds(w, at, header, tick) && !Leaks(w, at, header, tick)
  {
  }

  lemma FoundMeaning(w: World, at: Option<nat>, header: Header, tick: nat, p: seq<Hash>, m: nat)
    requires Keyed(w.chain) && Has(w.chain, header) && p == Path(w.chain, header.hash) && OpensFirst(w, p, m)
    requires Search(w, at, header, tick) == Found(w.chain[p[m]], AfterOpen(p, m, tick))
    requires !Cancelled(at, AfterOpen(p, m, tick) - 1)
    ensures var r := Run(w, at, header, tick);
            && (r.ok <==> Succeeds(w, at, header, tick))
            && (r.lost.Some? <==> Leaks(w, at, header, tick))
  {
    var base, t := w.chain[p[m]], AfterOpen(p, m, tick);
    assert p[|p| - 1] == header.hash;
    assert base == header <==> m + 1 == |p|;
    forall k: nat | OpensFirst(w, p, k)
      ensures k == m
    {
      FirstUnique(w, p, m, k);
    }
    assert Leaks(w, at, header, tick) <==> LeaksFrom(w, at, header, p, m, tick);
    if base != header {
      RebuildMeaning(w, at, header, base, base.number + 1, t);
    }
  }

  /** The result of a run on the input. */
  lemma RunMeaning(w: World, at: Option<nat>, header: Header, tick: nat)
    requires Keyed(w.chain) && Has(w.chain, header)
    ensures var r := Run(w, at, header, tick);
            && (r.ok <==> Succeeds(w, at, header, tick))
            && (r.lost.Some? <==> Leaks(w, at, header, tick))
  {
    var p := Path(w.chain, header.hash);
    SearchMeaning(w, at, header, tick);
    var found := Search(w, at, header, tick);
    if found.Found? {
      var m: nat :| OpensFirst(w, p, m) && found.header == w.chain[p[m]] && found.tick == AfterOpen(p, m, tick)
                    && !Cancelled(at, found.tick - 1);
      FoundMeaning(w, at, header, tick, p, m);
    } else {
      NotFoundMeaning(w, at, header, tick, p);
    }
  }

  /** Genesis with an open state, and block 2 on top whose own state is missing. */
  function Example(reopens: set<Hash>): World {
    World(map[1 := Header(1, NO_HASH, 0, 10, 0), 2 := Header(2, 1, 1, 11, 0)], 0, {1},
          map[1 := 2], {2}, {2}, reopens, true)
  }

  /** Cancelled at the inspection after the opening, the run keeps the reference on the root it found. */
  lemma CancelExample()
    ensures var w := Example({2});
            && Keyed(w.chain) && Run(w, Some(2), w.chain[2], 0) == Outcome(false, Some(10))
            && Leaks(w, Some(2), w.chain[2], 0)
  {
    var w := Example({2});
    assert Search(w, Some(2), w.chain[1], 1) == Found(w.chain[1], 2);
    RunMeaning(w, Some(2), w.chain[2], 0);
  }

  /** When the recreated state cannot be opened, the run keeps the reference on its root. */
  lemma ReopenExample()
    ensures var w := Example({});
            Keyed(w.chain) && Run(w, None, w.chain[2], 0) == Outcome(false, Some(11)) && Leaks(w, None, w.chain[2], 0)
  {
    var w := Example({});
    assert Search(w, None, w.chain[1], 1) == Found(w.chain[1], 2);
    RunMeaning(w, None, w.chain[2], 0);
  }

  function One(root: Option<Hash>, h: Hash): nat {
    if root == Some(h) then 1 else 0
  }

  /** refs are the references of base with those on at most two roots added. */
  ghost predicate Adds(refs: multiset<Hash>, base: multiset<Hash>, held: Option<Hash>, lost: Option<Hash>) {
    forall h :: refs[h] == base[h] + One(held, h) + One(lost, h)
  }

  /** Taking a reference on one root and giving back that on another. */
  lemma Exchange(before: multiset<Hash>, after: multiset<Hash>, base: multiset<Hash>, last: Hash, root: Hash)
    requires Adds(before, base, Some(last), None) && after == before + multiset{root} - multiset{last}
    ensures Adds(after, base, Some(root), None)
  {
    assert before[last] > 0;
  }

  lemma TakeOne(before: multiset<Hash>, after: multiset<Hash>, base: multiset<Hash>, last: Hash, root: Hash)
    requires Adds(before, base, Some(last), None) && after == before + multiset{root}
    ensures Adds(after, base, Some(last), Some(root)) && last in after
  {
    assert before[last] > 0;
  }

  /** References with one more, if any. */
  function Plus(base: multiset<Hash>, root: Option<Hash>): multiset<Hash> {
    if root.None? then base else base + multiset{root.value}
  }

  lemma AddsExact(refs: multiset<Hash>, base: multiset<Hash>, held: Option<Hash>, lost: Option<Hash>)
    requires Adds(refs, base, held, lost)
    ensures refs == Plus(base, held) <==> lost.None?
  {
    if lost.Some? {
      assert refs[lost.value] == base[lost.value] + One(held, lost.value) + 1;
    }
  }

  /** The reference a success holds. */
  function Held(ok: bool, header: Header): Option<Hash> {
    if ok then Some(header.root) else None
  }

  datatype Added = Ready | Refused | Unusable

  class Database {
    const w: World
    var references: int
    var refs: multiset<Hash>

    /** The counter is the number of outstanding references, none on the zero root. */
    ghost predicate Valid()
      reads this
    {
      && Keyed(w.chain) && (forall h :: h in w.chain ==> w.chain[h].root != NO_HASH)
      && references == |refs| && NO_HASH !in refs
    }

    constructor (w: World)
      requires Keyed(w.chain) && forall h :: h in w.chain ==> w.chain[h].root != NO_HASH
      ensures Valid() && refs == multiset{} && this.w == w
    {
      this.w, references, refs := w, 0, multiset{};
    }

    method ReferenceRoot(root: Hash)
      requires Valid() && root != NO_HASH
      modifies this
      ensures Valid() && refs == old(refs) + multiset{root}
    {
      references := references + 1;
      refs := refs + multiset{root};
    }

    method DereferenceRoot(root: Hash)
      requires Valid() && root in refs
      modifies this
      ensures Valid() && refs == old(refs) - multiset{root}
    {
      references := references - 1;
      refs := refs - multiset{root};
    }

    /** Opens the state of a header and references it, or fails without a reference. */
    method StateFor(header: Header) returns (ok: bool)
      requires Valid() && Has(w.chain, header)
      modifies this
      ensures Valid() && ok == (header.hash in w.opens)
      ensures refs == if ok then old(refs) + multiset{header.root} else old(refs)
    {
      ok := header.hash in w.opens;
      if ok {
        ReferenceRoot(header.root);
      }
    }

    /** What the search found, as it reports it: a header with one reference, or nothing and an error. */
    ghost predicate Reported(found: Lookup, ctx: Context, current: Option<Header>, err: bool, base: multiset<Hash>)
      reads this, ctx
    {
      if found.Found? then
        && current == Some(found.header) && ctx.tick == found.tick + 1 && err == Cancelled(ctx.at, found.tick)
        && Adds(refs, base, Some(found.header.root), None) && Has(w.chain, found.header)
      else current == None && err && Adds(refs, base, None, None)
    }

    /** Closest ancestor of the target whose state opens, with one reference; err may then still report a
        cancellation seen on return. */
    method FindLastAvailableState(ctx: Context, target: Header)
      returns (current: Option<Header>, err: bool, ghost r: Lookup)
      requires Valid() && Has(w.chain, target)
      modifies this, ctx
      ensures Valid()
      ensures r == Search(w, ctx.at, target, old(ctx.tick))
      ensures Reported(r, ctx, current, err, old(refs))
    {
      var h := target;
      r := Search(w, ctx.at, target, ctx.tick);
      err := ctx.Err();
      while !err
        invariant Valid() && refs == old(refs) && Has(w.chain, h) && ctx.tick > 0
        invariant err == Cancelled(ctx.at, ctx.tick - 1) && Search(w, ctx.at, h, ctx.tick - 1) == r
        decreases h.number, !err
      {
        var ok := StateFor(h);
        if ok {
          err := ctx.Err();
          return Some(h), err, r;
        }
        if h.number <= w.genesisNumber {
          return None, true, r;
        }
        var parent := GetHeader(w.chain, h.parent, Pred(h.number));
        if parent.None? {
          return None, true, r;
        }
        h := parent.value;
        err := ctx.Err();
      }
      return None, true, r;
    }

    /** Reads the block at a number and re-executes it on top of the given one. */
    method AdvanceStateByBlock(number: nat, prevHash: Hash) returns (block: Option<Header>)
      ensures block == Executed(w, number, prevHash)
    {
      if number !in w.blocks {
        return None;
      }
      block := GetHeader(w.chain, w.blocks[number], number);
      if block.None? || block.value.parent != prevHash || block.value.hash !in w.executes {
        return None;
      }
    }

    /** Commits a re-executed state. A failed commit or a wrong root takes no reference; opening the
        committed root again can still fail after the reference was taken. */
    method AddStateVerify(block: Header) returns (r: Added)
      requires Valid() && block.root != NO_HASH
      modifies this
      ensures Valid()
      ensures r == if block.hash !in w.commits then Refused else if block.hash !in w.reopens then Unusable else Ready
      ensures refs == if r.Refused? then old(refs) else old(refs) + multiset{block.root}
    {
      if block.hash !in w.commits {
        return Refused;
      }
      ReferenceRoot(block.root);
      if block.hash !in w.reopens {
        return Unusable;
      }
      return Ready;
    }

    /** One round: the next block's reference is taken before that of the last root is given back. */
    method Advance(number: nat, prevHash: Hash, lastRoot: Hash, ghost base: multiset<Hash>)
      returns (block: Option<Header>)
      requires Valid() && Adds(refs, base, Some(lastRoot), None)
      modifies this
      ensures Valid()
      ensures match AdvanceTo(w, number, prevHash)
              case Next(next) => block == Some(next) && Adds(refs, base, Some(next.root), None)
              case Failed => block == None && Adds(refs, base, Some(lastRoot), None)
              case NotReopened(root) => block == None && Adds(refs, base, Some(lastRoot), Some(root))
    {
      block := AdvanceStateByBlock(number, prevHash);
      if block.None? {
        return;
      }
      var added := AddStateVerify(block.value);
      if added.Refused? {
        return None;
      }
      TakeOne(old(refs), refs, base, lastRoot, block.value.root);
      if added.Unusable? {
        return None;
      }
      DereferenceRoot(lastRoot);
      Exchange(old(refs), refs, base, lastRoot, block.value.root);
    }

    /** Re-executes blocks on top of current up to the header. lastRoot is what the deferred release still
        has to give back. */
    method Recreate(ctx: Context, header: Header, current: Header, ghost base: multiset<Hash>)
      returns (ok: bool, lastRoot: Hash)
      requires Valid() && Has(w.chain, header) && Has(w.chain, current) && current.number < header.number
      requires Adds(refs, base, Some(current.root), None)
      modifies this, ctx
      ensures Valid()
      ensures var r := Rebuild(w, ctx.at, header, current.number + 1, current.hash, old(ctx.tick));
              && ok == r.Built? && (lastRoot == NO_HASH <==> ok)
              && Adds(refs, base, Some(if ok then header.root else lastRoot), Lost(r))
    {
      ghost var r := Rebuild(w, ctx.at, header, current.number + 1, current.hash, ctx.tick);
      ok, lastRoot := false, current.root;
      var number, prevHash := current.number + 1, current.hash;
      var err := ctx.Err();
      while !err
        invariant Valid() && lastRoot != NO_HASH && Adds(refs, base, Some(lastRoot), None) && number <= header.number
        invariant ctx.tick > 0 && err == Cancelled(ctx.at, ctx.tick - 1)
        invariant Rebuild(w, ctx.at, header, number, prevHash, ctx.tick - 1) == r
        decreases header.number - number, !err
      {
        ghost var step := AdvanceTo(w, number, prevHash);
        var block := Advance(number, prevHash, lastRoot, base);
        if block.None? {
          assert Lost(r) == if step.NotReopened? then Some(step.root) else None;
          return;
        }
        prevHash, lastRoot := block.value.hash, block.value.root;
        if number >= header.number {
          if block.value.hash != header.hash {
            return;
          }
          assert block.value == header;
          return true, NO_HASH;
        }
        number := number + 1;
        err := ctx.Err();
      }
    }

    /** Gives back the reference on root, and keeps what was lost. */
    method ReleaseLast(root: Hash, ghost base: multiset<Hash>, ghost lost: Option<Hash>)
      requires Valid() && Adds(refs, base, Some(root), lost)
      modifies this
      ensures Valid() && Adds(refs, base, None, lost)
    {
      assert refs[root] > 0;
      DereferenceRoot(root);
    }

    /** Re-execution with its deferred release. */
    method RecreateFrom(ctx: Context, header: Header, current: Header, ghost base: multiset<Hash>) returns (ok: bool)
      requires Valid() && Has(w.chain, header) && Has(w.chain, current) && current.number < header.number
      requires Adds(refs, base, Some(current.root), None)
      modifies this, ctx
      ensures Valid()
      ensures var r := Rebuild(w, ctx.at, header, current.number + 1, current.hash, old(ctx.tick));
              ok == r.Built? && Adds(refs, base, Held(ok, header), Lost(r))
    {
      ghost var r := Rebuild(w, ctx.at, header, current.number + 1, current.hash, ctx.tick);
      var lastRoot;
      ok, lastRoot := Recreate(ctx, header, current, base);
      if lastRoot != NO_HASH {
        ReleaseLast(lastRoot, base, Lost(r));
      }
    }

    /** The rest, for what the search found. */
    method Proceed(ctx: Context, header: Header, current: Option<Header>, err: bool,
                   ghost found: Lookup, ghost base: multiset<Hash>) returns (ok: bool)
      requires Valid() && Has(w.chain, header) && Reported(found, ctx, current, err, base)
      requires found.Found? ==> found.header == header || found.header.number < header.number
      modifies this, ctx
      ensures Valid() && ok == Resume(w, ctx.at, header, found).ok
      ensures Adds(refs, base, Held(ok, header), Resume(w, ctx.at, header, found).lost)
    {
      if err {
        return false;
      }
      if current.value == header {
        return true;
      }
      ok := RecreateFrom(ctx, header, current.value, base);
    }

    /** Opens or recreates the state of a header. Success holds exactly one more reference, on the header's
        root, and failure none, for any number of re-executed blocks and any failing step, exactly when
        the context is not cancelled between an opening and its return and no committed state fails to
        open. */
    method GetOrRecreateState(ctx: Context, header: Header) returns (ok: bool)
      requires Valid() && Has(w.chain, header)
      modifies this, ctx
      ensures Valid() && (ok <==> Succeeds(w, ctx.at, header, old(ctx.tick)))
      ensures Adds(refs, old(refs), Held(ok, header), Run(w, ctx.at, header, old(ctx.tick)).lost)
      ensures refs == Plus(old(refs), Held(ok, header)) <==> !Leaks(w, ctx.at, header, old(ctx.tick))
    {
      RunMeaning(w, ctx.at, header, ctx.tick);
      var current, err, found := FindLastAvailableState(ctx, header);
      ok := Proceed(ctx, header, current, err, found, old(refs));
      AddsExact(refs, old(refs), Held(ok, header), Run(w, ctx.at, header, old(ctx.tick)).lost);
    }

    /** Prepares a recording on top of a header: what was referenced is released again when a later step
        fails. */
    method PrepareRecording(ctx: Context, header: Header) returns (ok: bool)
      requires Valid() && Has(w.chain, header)
      modifies this, ctx
      ensures Valid() && (ok <==> w.records && Succeeds(w, ctx.at, header, old(ctx.tick)))
      ensures Adds(refs, old(refs), Held(ok, header), Run(w, ctx.at, header, old(ctx.tick)).lost)
      ensures refs == Plus(old(refs), Held(ok, header)) <==> !Leaks(w, ctx.at, header, old(ctx.tick))
    {
      RunMeaning(w, ctx.at, header, ctx.tick);
      ghost var lost := Run(w, ctx.at, header, ctx.tick).lost;
      ok := GetOrRecreateState(ctx, header);
      if ok && !w.records {
        ReleaseLast(header.root, old(refs), lost);
        ok := false;
      }
      AddsExact(refs, old(refs), Held(ok, header), lost);
    }

    /** Recording on a header and releasing it restores every reference exactly when nothing leaks. */
    method RecordOnce(ctx: Context, header: Header)
      requires Valid() && Has(w.chain, header)
      modifies this, ctx
      ensures Valid() && (refs == old(refs) <==> !Leaks(w, ctx.at, header, old(ctx.tick)))
    {
      RunMeaning(w, ctx.at, header, ctx.tick);
      ghost var lost := Run(w, ctx.at, header, ctx.tick).lost;
      var ok := PrepareRecording(ctx, header);
      if ok {
        ReleaseLast(header.root, old(refs), lost);
      }
      AddsExact(refs, old(refs), None, lost);
    }
  }
}
