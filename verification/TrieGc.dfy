/** The trie garbage collection of core/blockchain.go: every block write references its
    state root and queues it, old roots are dequeued and dereferenced, and Stop drains the queue. */
module TrieGc {
  import opened Basics

  type Root = nat

  /** A queued state root with the block number and timestamp it belongs to. */
  datatype Entry = Entry(root: Root, time: nat, number: nat)

  /** Limits of the cache configuration; both skip limits zero in archive mode keep every state. */
  datatype Config = Config(archive: bool, triesInMemory: nat, trieRetention: nat,
                           maxBlocksToSkip: nat, maxGasToSkip: nat, flushInterval: nat)

  function Roots(q: seq<Entry>): (r: seq<Root>)
    ensures |r| == |q| && forall i :: 0 <= i < |q| ==> r[i] == q[i].root
  {
    seq(|q|, i requires 0 <= i < |q| => q[i].root)
  }

  function Without(q: seq<Entry>, i: nat): seq<Entry>
    requires i < |q|
  {
    q[..i] + q[i + 1..]
  }

  lemma TakeOut(q: seq<Entry>, i: nat)
    requires i < |q|
    ensures multiset(q) == multiset(Without(q, i)) + multiset{q[i]}
    ensures multiset(Roots(q)) == multiset(Roots(Without(q, i))) + multiset{q[i].root}
  {
    assert q == q[..i] + [q[i]] + q[i + 1..];
    var r := Roots(q);
    assert r == r[..i] + [r[i]] + r[i + 1..];
    assert Roots(Without(q, i)) == r[..i] + r[i + 1..];
  }

  lemma PutIn(q: seq<Entry>, e: Entry)
    ensures multiset(Roots(q + [e])) == multiset(Roots(q)) + multiset{e.root}
  {
    assert Roots(q + [e]) == Roots(q) + [e.root];
  }

  ghost predicate Oldest(q: seq<Entry>, e: Entry) {
    forall x :: x in q ==> e.number <= x.number
  }

  predicate Expired(e: Entry, blockLimit: int, timeLimit: int) {
    e.number <= blockLimit && e.time <= timeLimit
  }

  /** The queue q0 is what is left plus what was dropped; the dropped entries had expired and are no
      newer than those left. */
  ghost predicate Drained(q0: seq<Entry>, q: seq<Entry>, dropped: seq<Entry>, blockLimit: int, timeLimit: int) {
    && multiset(q0) == multiset(q) + multiset(dropped)
    && forall e :: e in dropped ==> Expired(e, blockLimit, timeLimit) && Oldest(q, e)
  }

  /** Some oldest entry of a nonempty queue has not expired. */
  ghost predicate HeadFresh(q: seq<Entry>, blockLimit: int, timeLimit: int) {
    q != [] ==> exists e :: e in q && Oldest(q, e) && !Expired(e, blockLimit, timeLimit)
  }

  lemma OldestSub(q: seq<Entry>, q': seq<Entry>, e: Entry)
    requires Oldest(q, e) && multiset(q') <= multiset(q)
    ensures Oldest(q', e)
  {
    forall x | x in q'
      ensures e.number <= x.number
    {
      assert x in multiset(q');
      assert x in multiset(q);
    }
  }

  lemma DrainMore(q0: seq<Entry>, q: seq<Entry>, q': seq<Entry>, dropped: seq<Entry>,
                  blockLimit: int, timeLimit: int, e: Entry)
    requires Drained(q0, q, dropped, blockLimit, timeLimit)
    requires multiset(q) == multiset(q') + multiset{e} && Oldest(q, e) && Expired(e, blockLimit, timeLimit)
    ensures Drained(q0, q', dropped + [e], blockLimit, timeLimit)
  {
    forall d | d in dropped + [e]
      ensures Expired(d, blockLimit, timeLimit) && Oldest(q', d)
    {
      OldestSub(q, q', d);
    }
  }

  lemma DrainSame(q0: seq<Entry>, q: seq<Entry>, q': seq<Entry>, dropped: seq<Entry>,
                  blockLimit: int, timeLimit: int, e: Entry)
    requires Drained(q0, q, dropped, blockLimit, timeLimit) && multiset(q) == multiset(q') && e in q && Oldest(q, e)
    ensures Drained(q0, q', dropped, blockLimit, timeLimit) && e in q' && Oldest(q', e)
  {
    forall d | d in dropped
      ensures Oldest(q', d)
    {
      OldestSub(q, q', d);
    }
    OldestSub(q, q', e);
    assert e in multiset(q');
  }

  ghost function Sum(xs: seq<nat>): nat {
    if xs == [] then 0 else Sum(xs[..|xs| - 1]) + xs[|xs| - 1]
  }

  /** The entry dequeued last, if any. */
  function Last(dropped: seq<Entry>): seq<Entry> {
    if dropped == [] then [] else [dropped[|dropped| - 1]]
  }

  /** Roots saved when a collection ends on the given entry: the canonical state at its height, once
      enough processing time has passed. */
  function Flushed(cfg: Config, spent: nat, canonical: map<nat, Root>, last: seq<Entry>): seq<Root> {
    if last != [] && spent > cfg.flushInterval && !cfg.archive && last[0].number in canonical
    then [canonical[last[0].number]] else []
  }

  /** One block write, with the clock, the canonical states and the processing time it sees. */
  datatype Write = Write(block: Entry, gasUsed: nat, now: nat, canonical: map<nat, Root>,
                         randomOffset: nat, processTime: nat)

  /** Archive nodes that save every state never queue anything. */
  predicate SavesAll(cfg: Config) {
    cfg.archive && cfg.maxBlocksToSkip == 0 && cfg.maxGasToSkip == 0
  }

  /** An archive must save the state of a block that uses the given gas at once: it saves every state, or
      skipping one more after those skipped would exceed a limit on skipped blocks or their gas. */
  ghost predicate Due(cfg: Config, skipped: seq<nat>, gasUsed: nat) {
    && cfg.archive
    && (|| SavesAll(cfg)
        || (cfg.maxBlocksToSkip != 0 && |skipped| + 1 > cfg.maxBlocksToSkip)
        || (cfg.maxGasToSkip != 0 && Sum(skipped) + gasUsed > cfg.maxGasToSkip))
  }

  /** A collector between two writes: what it queues, references and has saved, the gas of the blocks
      skipped since the last save of an archive, and the processing time since the last flush. */
  datatype Snapshot = Snapshot(queue: seq<Entry>, refs: multiset<Root>, commits: seq<Root>,
                               skipped: seq<nat>, gcproc: nat)

  /** A state saved at once: nothing is queued or dropped. */
  ghost predicate Saved(s: Snapshot, w: Write, t: Snapshot) {
    && t.queue == s.queue && t.refs == s.refs && t.commits == s.commits + [w.block.root]
    && t.gcproc == s.gcproc
  }

  /** A block is queued. Then what is dropped had expired by number and timestamp and is no newer than
      anything that stays, and when both limits are positive the oldest entry that stays has not expired. */
  ghost predicate Queued(cfg: Config, s: Snapshot, w: Write, t: Snapshot, dropped: seq<Entry>) {
    var blockLimit, timeLimit := w.block.number - cfg.triesInMemory, w.now - cfg.trieRetention;
    var flushed := Flushed(cfg, s.gcproc + w.randomOffset, w.canonical, Last(dropped));
    && Drained(s.queue + [w.block], t.queue, dropped, blockLimit, timeLimit)
    && (if blockLimit > 0 && timeLimit > 0 then HeadFresh(t.queue, blockLimit, timeLimit) else dropped == [])
    && t.refs == multiset(Roots(t.queue))
    && t.commits == s.commits + flushed && t.gcproc == (if |flushed| == 0 then s.gcproc else 0)
  }

  lemma OnlyQueued(cfg: Config, s: Snapshot, w: Write, t: Snapshot)
    requires w.block.number <= cfg.triesInMemory || w.now <= cfg.trieRetention
    requires t.queue == s.queue + [w.block] && t.refs == multiset(Roots(t.queue))
    requires t.commits == s.commits && t.gcproc == s.gcproc
    ensures Queued(cfg, s, w, t, [])
  {
  }

  /** One block write: the state is saved at once if it is due, and queued otherwise. */
  ghost predicate Wrote(cfg: Config, s: Snapshot, w: Write, t: Snapshot, dropped: seq<Entry>) {
    if Due(cfg, s.skipped, w.gasUsed) then Saved(s, w, t) && dropped == [] && t.skipped == []
    else Queued(cfg, s, w, t, dropped) && t.skipped == s.skipped + [w.gasUsed]
  }

  /** A write after its processing time was counted. */
  ghost predicate Follows(cfg: Config, s: Snapshot, w: Write, t: Snapshot, dropped: seq<Entry>) {
    Wrote(cfg, s.(gcproc := s.gcproc + w.processTime), w, t, dropped)
  }

  /** The snapshots of a run of writes, each from where the one before it ended, and what each dropped. */
  ghost predicate IsTrace(cfg: Config, trace: seq<Snapshot>, writes: seq<Write>, drops: seq<seq<Entry>>) {
    && |trace| == |writes| + 1 && |drops| == |writes|
    && forall i :: 0 <= i < |writes| ==> Follows(cfg, trace[i], writes[i], trace[i + 1], drops[i])
  }

  lemma TraceNext(cfg: Config, trace: seq<Snapshot>, writes: seq<Write>, drops: seq<seq<Entry>>,
                  w: Write, t: Snapshot, dropped: seq<Entry>)
    requires IsTrace(cfg, trace, writes, drops) && Follows(cfg, trace[|writes|], w, t, dropped)
    ensures IsTrace(cfg, trace + [t], writes + [w], drops + [dropped])
  {
    var trace', writes', drops' := trace + [t], writes + [w], drops + [dropped];
    forall i | 0 <= i < |writes'|
      ensures Follows(cfg, trace'[i], writes'[i], trace'[i + 1], drops'[i])
    {
      if i < |writes| {
        assert trace'[i] == trace[i] && trace'[i + 1] == trace[i + 1] && drops'[i] == drops[i];
        assert Follows(cfg, trace[i], writes[i], trace[i + 1], drops[i]);
      }
    }
  }

  /** State saved at shutdown for one offset below the head, with the uint64 wrap of the subtraction: the
      largest offset stands for the oldest queued block, if any. */
  function Recent(offset: nat, head: nat, oldest: Option<nat>, canonical: map<nat, Root>): seq<Root> {
    if head <= offset && offset != MAX_U64 then []
    else
      var number := if offset == MAX_U64 && oldest.Some? then oldest.value else (head + TWO_64 - offset) % TWO_64;
      if number in canonical && canonical[number] != 0 then [canonical[number]] else []
  }

  function RecentAll(offsets: seq<nat>, head: nat, oldest: Option<nat>, canonical: map<nat, Root>): seq<Root> {
    if offsets == [] then []
    else
      RecentAll(offsets[..|offsets| - 1], head, oldest, canonical)
      + Recent(offsets[|offsets| - 1], head, oldest, canonical)
  }

  /** Offsets saved at shutdown: the head, the block below, the oldest state kept in memory, and the mark
      for the oldest queued block. */
  function Offsets(triesInMemory: nat): seq<nat> {
    [0, 1, (triesInMemory + TWO_64 - 1) % TWO_64, MAX_U64]
  }

  /** What a shutdown saves: nothing if every state was saved already, else the recent states and the base
      of the snapshot, if there is one. */
  function Shutdown(cfg: Config, head: nat, oldest: Option<nat>, canonical: map<nat, Root>, snapBase: Root): seq<Root> {
    if SavesAll(cfg) then []
    else RecentAll(Offsets(cfg.triesInMemory), head, oldest, canonical) + if snapBase != 0 then [snapBase] else []
  }

  /** Every offset's state is among those saved. */
  lemma {:induction false} RecentSaved(offsets: seq<nat>, head: nat, oldest: Option<nat>,
                                       canonical: map<nat, Root>, i: nat)
    requires i < |offsets|
    ensures forall root :: root in Recent(offsets[i], head, oldest, canonical) ==>
              root in RecentAll(offsets, head, oldest, canonical)
  {
    if i < |offsets| - 1 {
      RecentSaved(offsets[..|offsets| - 1], head, oldest, canonical, i);
    }
  }

  /** A shutdown saves the states of the head, of the block below it and of the oldest queued block,
      where the canonical chain has them. */
  lemma ShutdownSaves(triesInMemory: nat, head: nat, oldest: Option<nat>, canonical: map<nat, Root>)
    requires head < TWO_64
    ensures var saved := RecentAll(Offsets(triesInMemory), head, oldest, canonical);
            && (head > 0 && head in canonical && canonical[head] != 0 ==> canonical[head] in saved)
            && (head > 1 && head - 1 in canonical && canonical[head - 1] != 0 ==> canonical[head - 1] in saved)
            && (oldest.Some? && oldest.value in canonical && canonical[oldest.value] != 0 ==>
                  canonical[oldest.value] in saved)
  {
    var offsets := Offsets(triesInMemory);
    RecentSaved(offsets, head, oldest, canonical, 0);
    RecentSaved(offsets, head, oldest, canonical, 1);
    RecentSaved(offsets, head, oldest, canonical, 3);
    assert head > 0 ==> (head + TWO_64 - 0) % TWO_64 == head;
    assert head > 1 ==> (head + TWO_64 - 1) % TWO_64 == head - 1;
  }

  /** The oldest queued height, if anything is queued. */
  ghost predicate IsOldest(q: seq<Entry>, oldest: Option<nat>) {
    match oldest
    case None => q == []
    case Some(n) => exists e :: e in q && Oldest(q, e) && e.number == n
  }

  class Collector {
    const cfg: Config
    var queue: seq<Entry>
    var refs: multiset<Root>
    var commits: seq<Root>
    var blocksToSkip: nat
    var gasToSkip: nat
    var gcproc: nat
    var lastWrite: nat
    // Gas used by the blocks whose state was not saved since the last save.
    ghost var skipped: seq<nat>

    /** What may still be skipped and what was skipped make up the limits of a sparse archive. */
    ghost predicate Sparse()
      reads this`blocksToSkip, this`gasToSkip, this`skipped
    {
      && (cfg.archive && cfg.maxBlocksToSkip != 0 ==> blocksToSkip + |skipped| == cfg.maxBlocksToSkip)
      && (cfg.archive && cfg.maxGasToSkip != 0 ==> gasToSkip + Sum(skipped) == cfg.maxGasToSkip)
    }

    /** Outstanding metadata references are exactly the queued roots. */
    ghost predicate Valid()
      reads this
    {
      refs == multiset(Roots(queue)) && (SavesAll(cfg) ==> queue == []) && Sparse()
    }

    ghost function Now(): Snapshot
      reads this
    {
      Snapshot(queue, refs, commits, skipped, gcproc)
    }

    constructor (cfg: Config)
      ensures Valid() && this.cfg == cfg && queue == []
    {
      this.cfg := cfg;
      skipped := [];
      queue, refs, commits := [], multiset{}, [];
      blocksToSkip, gasToSkip, gcproc, lastWrite := cfg.maxBlocksToSkip, cfg.maxGasToSkip, 0, 0;
    }

    /** Where an entry of highest priority is queued. */
    method OldestIndex() returns (best: nat)
      requires queue != []
      ensures best < |queue| && Oldest(queue, queue[best])
    {
      best := 0;
      for i := 1 to |queue|
        invariant best < |queue| && forall j :: 0 <= j < i ==> queue[best].number <= queue[j].number
      {
        if queue[i].number < queue[best].number {
          best := i;
        }
      }
    }

    /** Pops an entry of highest priority, that is lowest block number. */
    method Pop() returns (e: Entry)
      requires queue != []
      modifies this`queue
      ensures multiset(old(queue)) == multiset(queue) + multiset{e}
      ensures multiset(Roots(old(queue))) == multiset(Roots(queue)) + multiset{e.root}
      ensures |queue| == |old(queue)| - 1 && Oldest(old(queue), e)
    {
      var best := OldestIndex();
      e := queue[best];
      TakeOut(queue, best);
      queue := Without(queue, best);
    }

    /** Gives back one reference; rest is what remains. */
    method Dereference(root: Root, ghost rest: multiset<Root>)
      requires refs == rest + multiset{root}
      modifies this`refs
      ensures refs == rest
    {
      refs := refs - multiset{root};
    }

    /** Archive bookkeeping: whether this block's state must be saved to disk at once. */
    method MustCommit(gasUsed: nat) returns (now: bool)
      requires Sparse()
      modifies this`blocksToSkip, this`gasToSkip, this`skipped
      ensures Sparse() && skipped == if now then [] else old(skipped) + [gasUsed]
      ensures now <==> Due(cfg, old(skipped), gasUsed)
    {
      ghost var skipped' := skipped + [gasUsed];
      assert skipped'[..|skipped|] == skipped;
      if !cfg.archive {
        skipped := skipped';
        return false;
      }
      var maySkip, blockLimit, gasLimit := false, false, false;
      if cfg.maxBlocksToSkip != 0 {
        maySkip := true;
        if blocksToSkip > 0 {
          blocksToSkip := blocksToSkip - 1;
        } else {
          blockLimit := true;
        }
      }
      if cfg.maxGasToSkip != 0 {
        maySkip := true;
        if gasToSkip >= gasUsed {
          gasToSkip := gasToSkip - gasUsed;
        } else {
          gasLimit := true;
        }
      }
      now := !maySkip || blockLimit || gasLimit;
      skipped := skipped';
      if now {
        blocksToSkip, gasToSkip := cfg.maxBlocksToSkip, cfg.maxGasToSkip;
        skipped := [];
      }
    }

    /** Dequeues the oldest entry if it has expired, else leaves the queue as it was. */
    method PopExpired(blockLimit: int, timeLimit: int) returns (e: Entry, expired: bool)
      requires queue != []
      modifies this`queue
      ensures e in old(queue) && Oldest(old(queue), e) && expired == Expired(e, blockLimit, timeLimit)
      ensures expired ==>
                && multiset(old(queue)) == multiset(queue) + multiset{e} && |queue| < |old(queue)|
                && multiset(Roots(old(queue))) == multiset(Roots(queue)) + multiset{e.root}
      ensures !expired ==>
                multiset(old(queue)) == multiset(queue) && multiset(Roots(old(queue))) == multiset(Roots(queue))
    {
      e := Pop();
      assert e in multiset(old(queue));
      expired := true;
      if e.number > blockLimit || e.time > timeLimit {
        PutIn(queue, e);
        queue := queue + [e];
        expired := false;
      }
    }

    /** Dereferences the entry dequeued before, if any; rest is what stays referenced. */
    method DereferencePrevious(prev: seq<Entry>, ghost rest: multiset<Root>)
      requires |prev| <= 1 && refs == rest + multiset(Roots(prev))
      modifies this`refs
      ensures refs == rest
    {
      if |prev| != 0 {
        assert Roots(prev) == [prev[0].root];
        Dereference(prev[0].root, rest);
      }
    }

    /** Dequeues expired entries, oldest first, until one must stay. Each is dereferenced when the next
        one is dequeued; the last is returned still referenced. */
    method DequeueExpired(blockLimit: int, timeLimit: int) returns (prev: seq<Entry>, ghost dropped: seq<Entry>)
      requires refs == multiset(Roots(queue))
      modifies this`queue, this`refs
      ensures prev == Last(dropped) && refs == multiset(Roots(queue)) + multiset(Roots(prev))
      ensures Drained(old(queue), queue, dropped, blockLimit, timeLimit)
      ensures HeadFresh(queue, blockLimit, timeLimit)
    {
      prev, dropped := [], [];
      while |queue| != 0
        invariant prev == Last(dropped) && refs == multiset(Roots(queue)) + multiset(Roots(prev))
        invariant Drained(old(queue), queue, dropped, blockLimit, timeLimit)
        decreases |queue|
      {
        ghost var before := queue;
        var e, expired := PopExpired(blockLimit, timeLimit);
        if !expired {
          DrainSame(old(queue), before, queue, dropped, blockLimit, timeLimit, e);
          break;
        }
        DrainMore(old(queue), before, queue, dropped, blockLimit, timeLimit, e);
        DereferencePrevious(prev, multiset(Roots(queue)) + multiset{e.root});
        prev, dropped := [e], dropped + [e];
        assert Roots(prev) == [e.root];
      }
    }

    /** Saves the canonical state at the height of the entry dequeued last, when it is time to. */
    method Flush(last: seq<Entry>, canonical: map<nat, Root>, randomOffset: nat)
      requires |last| <= 1
      modifies this`commits, this`lastWrite, this`gcproc
      ensures var flushed := Flushed(cfg, old(gcproc) + randomOffset, canonical, last);
              commits == old(commits) + flushed && gcproc == if |flushed| == 0 then old(gcproc) else 0
    {
      if gcproc + randomOffset > cfg.flushInterval && |last| != 0 && !cfg.archive {
        if last[0].number in canonical {
          commits := commits + [canonical[last[0].number]];
          lastWrite, gcproc := last[0].number, 0;
        }
      }
    }

    /** Collects expired entries, saving a state while the newest of them is still referenced. */
    method Collect(blockLimit: int, timeLimit: int, canonical: map<nat, Root>, randomOffset: nat)
      returns (ghost dropped: seq<Entry>)
      requires refs == multiset(Roots(queue))
      modifies this`queue, this`refs, this`commits, this`lastWrite, this`gcproc
      ensures refs == multiset(Roots(queue))
      ensures var flushed := Flushed(cfg, old(gcproc) + randomOffset, canonical, Last(dropped));
              commits == old(commits) + flushed && gcproc == if |flushed| == 0 then old(gcproc) else 0
      ensures Drained(old(queue), queue, dropped, blockLimit, timeLimit) && HeadFresh(queue, blockLimit, timeLimit)
    {
      var prev;
      prev, dropped := DequeueExpired(blockLimit, timeLimit);
      Flush(prev, canonical, randomOffset);
      DereferencePrevious(prev, multiset(Roots(queue)));
    }

    /** References a root and queues it. */
    method Enqueue(block: Entry)
      requires refs == multiset(Roots(queue))
      modifies this`queue, this`refs
      ensures queue == old(queue) + [block] && refs == multiset(Roots(queue))
    {
      PutIn(queue, block);
      refs := refs + multiset{block.root};
      queue := queue + [block];
    }

    /** Queues a block and collects what expired. */
    method Queue(w: Write) returns (ghost dropped: seq<Entry>)
      requires refs == multiset(Roots(queue))
      modifies this`queue, this`refs, this`commits, this`lastWrite, this`gcproc
      ensures Queued(cfg, old(Now()), w, Now(), dropped)
    {
      dropped := [];
      Enqueue(w.block);
      var blockLimit, timeLimit := w.block.number - cfg.triesInMemory, w.now - cfg.trieRetention;
      if blockLimit > 0 && timeLimit > 0 {
        dropped := Collect(blockLimit, timeLimit, w.canonical, w.randomOffset);
      } else {
        OnlyQueued(cfg, old(Now()), w, Now());
      }
    }

    /** The collection part of a block write. */
    method WriteBlock(w: Write) returns (ghost dropped: seq<Entry>)
      requires Valid()
      modifies this
      ensures Valid() && Wrote(cfg, old(Now()), w, Now(), dropped)
    {
      dropped := [];
      var commitNow := MustCommit(w.gasUsed);
      if commitNow {
        commits := commits + [w.block.root];
      } else {
        dropped := Queue(w);
      }
    }

    /** Number of the oldest queued block, if any. */
    method Peek() returns (oldest: Option<nat>)
      ensures IsOldest(queue, oldest)
    {
      if |queue| == 0 {
        return None;
      }
      var best := OldestIndex();
      assert queue[best] in queue;
      return Some(queue[best].number);
    }

    method SaveOffsets(offsets: seq<nat>, head: nat, oldest: Option<nat>, canonical: map<nat, Root>)
      modifies this`commits
      ensures commits == old(commits) + RecentAll(offsets, head, oldest, canonical)
    {
      for i := 0 to |offsets|
        invariant commits == old(commits) + RecentAll(offsets[..i], head, oldest, canonical)
      {
        assert offsets[..i + 1][..i] == offsets[..i];
        commits := commits + Recent(offsets[i], head, oldest, canonical);
      }
      assert offsets[..|offsets|] == offsets;
    }

    /** Saves the states of recent blocks before a shutdown. */
    method SaveRecent(head: nat, canonical: map<nat, Root>, snapBase: Root) returns (ghost oldest: Option<nat>)
      modifies this`commits
      ensures IsOldest(queue, oldest)
      ensures commits == old(commits) + RecentAll(Offsets(cfg.triesInMemory), head, oldest, canonical)
                         + (if snapBase != 0 then [snapBase] else [])
    {
      var peeked := Peek();
      oldest := peeked;
      SaveOffsets(Offsets(cfg.triesInMemory), head, peeked, canonical);
      if snapBase != 0 {
        commits := commits + [snapBase];
      }
    }

    /** Dereferences everything queued. */
    method Drain()
      requires refs == multiset(Roots(queue))
      modifies this`queue, this`refs
      ensures queue == [] && refs == multiset{}
    {
      while |queue| != 0
        invariant refs == multiset(Roots(queue))
        decreases |queue|
      {
        var e := Pop();
        Dereference(e.root, multiset(Roots(queue)));
      }
    }

    /** Shutdown: nodes that do not save every state save the recent ones, then drain the queue; no
        reference is left, in every mode. */
    method Stop(head: nat, canonical: map<nat, Root>, snapBase: Root) returns (ghost oldest: Option<nat>)
      requires Valid()
      modifies this`queue, this`refs, this`commits
      ensures Valid() && queue == [] && refs == multiset{} && IsOldest(old(queue), oldest)
      ensures commits == old(commits) + Shutdown(cfg, head, oldest, canonical, snapBase)
    {
      oldest := None;
      if !cfg.archive || cfg.maxBlocksToSkip > 0 || cfg.maxGasToSkip > 0 {
        oldest := SaveRecent(head, canonical, snapBase);
        Drain();
      }
    }

    /** A write that counts its processing time. */
    method WriteBlockWithTime(w: Write) returns (ghost dropped: seq<Entry>)
      requires Valid()
      modifies this
      ensures Valid() && Follows(cfg, old(Now()), w, Now(), dropped)
    {
      gcproc := gcproc + w.processTime;
      assert Now() == old(Now()).(gcproc := gcproc);
      dropped := WriteBlock(w);
    }

    /** Any run of block writes followed by a shutdown: the shutdown saves the recent states on top of what
        the writes saved, and leaves no reference behind. */
    method RunAndStop(writes: seq<Write>, head: nat, canonical: map<nat, Root>, snapBase: Root)
      returns (ghost trace: seq<Snapshot>, ghost drops: seq<seq<Entry>>, ghost oldest: Option<nat>)
      requires Valid()
      modifies this
      ensures IsTrace(cfg, trace, writes, drops) && trace[0] == old(Now())
      ensures IsOldest(trace[|writes|].queue, oldest)
      ensures commits == trace[|writes|].commits + Shutdown(cfg, head, oldest, canonical, snapBase)
      ensures refs == multiset{} && queue == []
    {
      trace, drops := [Now()], [];
      for i := 0 to |writes|
        invariant Valid() && IsTrace(cfg, trace, writes[..i], drops) && trace[0] == old(Now()) && trace[i] == Now()
      {
        ghost var dropped := WriteBlockWithTime(writes[i]);
        TraceNext(cfg, trace, writes[..i], drops, writes[i], Now(), dropped);
        assert writes[..i] + [writes[i]] == writes[..i + 1];
        trace, drops := trace + [Now()], drops + [dropped];
      }
      assert writes[..|writes|] == writes;
      oldest := Stop(head, canonical, snapBase);
    }
  }
}
