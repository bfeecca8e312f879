/** The block change stream of core/blockchain.go: every new head is announced to a
    downstream consumer as the blocks to drop and the blocks to append. */
module ChangeStream {
  import opened Basics
  import opened BlockTree

  /** kind 1 extends the consumer's chain, kind 2 replaces part of it. */
  datatype Change = Change(kind: nat, newBlocks: seq<Header>, dropBlocks: seq<Header>)

  function Hashes(hs: seq<Header>): (r: seq<Hash>)
    ensures |r| == |hs| && forall i :: 0 <= i < |hs| ==> r[i] == hs[i].hash
  {
    seq(|hs|, i requires 0 <= i < |hs| => hs[i].hash)
  }

  /** What a consumer does with a change whose dropped blocks end its view. */
  function Consume(view: seq<Hash>, c: Change): seq<Hash>
    requires |c.dropBlocks| <= |view|
  {
    view[..|view| - |c.dropBlocks|] + Hashes(c.newBlocks)
  }

  lemma ReversedDescent(s: Store, p: seq<Hash>, hs: seq<Header>, h: Header)
    requires Walked(s, p, hs, h)
    ensures Hashes(Reverse(hs)) == p[h.number + 1..]
  {
  }

  /** The dropped blocks are the end of p and the new ones the end of q, both from right above the
      highest common ancestor, so that consuming the change turns p into q. */
  ghost predicate Bridges(p: seq<Hash>, q: seq<Hash>, c: Change) {
    && |c.dropBlocks| < |p| && c.newBlocks != []
    && SplitAt(p, q, |p| - |c.dropBlocks|)
    && Hashes(c.dropBlocks) == p[|p| - |c.dropBlocks|..] && Consume(p, c) == q
    && c.kind == (if c.dropBlocks == [] then 1 else 2)
  }

  /** Blocks right above the highest common ancestor, dropped and added, turn p into q. */
  lemma ChangeMeaning(p: seq<Hash>, q: seq<Hash>, n: nat, drop: seq<Header>, added: seq<Header>)
    requires SplitAt(p, q, n + 1) && |p| <= |q|
    requires Hashes(drop) == p[n + 1..] && Hashes(added) == q[n + 1..]
    ensures drop == [] && added == [] <==> p[|p| - 1] == q[|q| - 1] && |p| == |q|
    ensures drop != [] ==> Bridges(p, q, Change(2, added, drop))
    ensures drop == [] && added != [] ==> Bridges(p, q, Change(1, added, []))
  {
    assert |Hashes(drop)| == |p| - n - 1;
    assert |Hashes(added)| == |q| - n - 1;
    assert q == q[..n + 1] + q[n + 1..];
    if drop == [] && added == [] {
      assert p == p[..n + 1];
    }
  }

  datatype Announcement = Announcement(block: Header, isLeader: bool, delivered: bool)

  /** The view of a consumer that applies the delivered changes in order. */
  ghost function Replay(view: seq<Hash>, log: seq<Change>): seq<Hash> {
    if log == [] then view
    else
      var v := Replay(view, log[..|log| - 1]);
      var c := log[|log| - 1];
      if |c.dropBlocks| <= |v| then Consume(v, c) else v
  }

  /** The last pushed block after one announcement. */
  function NextPushed(last: Option<Header>, a: Announcement): Option<Header> {
    if a.isLeader && a.delivered && last.Some? && last.value.number <= a.block.number then Some(a.block) else last
  }

  ghost function LastPushed(last: Option<Header>, heads: seq<Announcement>): Option<Header> {
    if heads == [] then last else NextPushed(LastPushed(last, heads[..|heads| - 1]), heads[|heads| - 1])
  }

  /** How many of the announcements moved the last pushed block, each with one delivered message. */
  ghost function Delivered(last: Option<Header>, heads: seq<Announcement>): nat {
    if heads == [] then 0
    else
      var before := heads[..|heads| - 1];
      Delivered(last, before) + if LastPushed(last, heads) == LastPushed(last, before) then 0 else 1
  }

  /** Every message leads from the view that the messages before it produced to the next. */
  ghost predicate Chained(view: seq<Hash>, log: seq<Change>) {
    forall i :: 0 <= i < |log| ==> Bridges(Replay(view, log[..i]), Replay(view, log[..i + 1]), log[i])
  }

  lemma ChainedNext(view: seq<Hash>, log: seq<Change>, c: Change, next: seq<Hash>)
    requires Chained(view, log) && Bridges(Replay(view, log), next, c)
    ensures Replay(view, log + [c]) == next && Chained(view, log + [c])
  {
    var log' := log + [c];
    assert log'[..|log|] == log && log'[..|log| + 1] == log';
    forall i | 0 <= i < |log'|
      ensures Bridges(Replay(view, log'[..i]), Replay(view, log'[..i + 1]), log'[i])
    {
      if i < |log| {
        assert log'[..i] == log[..i] && log'[..i + 1] == log[..i + 1];
      }
    }
  }

  /** After these announcements, the messages they delivered take a consumer to the ancestor path of the
      block pushed last. */
  ghost predicate InStep(s: Store, view: seq<Hash>, log: seq<Change>, last: Option<Header>, heads: seq<Announcement>) {
    && Delivered(last, heads) <= |log|
    && match LastPushed(last, heads)
       case None => true
       case Some(h) => h.hash in s && Replay(view, log[..Delivered(last, heads)]) == Path(s, h.hash)
  }

  /** The messages that the announcements delivered: each continues the view the ones before it produced,
      and the consumer is in step after every announcement. */
  ghost predicate Streamed(s: Store, view: seq<Hash>, log: seq<Change>,
                           last: Option<Header>, heads: seq<Announcement>) {
    && Chained(view, log) && |log| == Delivered(last, heads)
    && forall i :: 0 <= i <= |heads| ==> InStep(s, view, log, last, heads[..i])
  }

  lemma InStepStill(s: Store, view: seq<Hash>, log: seq<Change>, c: Change,
                    last: Option<Header>, heads: seq<Announcement>)
    requires InStep(s, view, log, last, heads)
    ensures InStep(s, view, log + [c], last, heads)
  {
    var n := Delivered(last, heads);
    assert (log + [c])[..n] == log[..n];
  }

  lemma PushedNext(last: Option<Header>, heads: seq<Announcement>, a: Announcement)
    ensures LastPushed(last, heads + [a]) == NextPushed(LastPushed(last, heads), a)
    ensures Delivered(last, heads + [a]) ==
            Delivered(last, heads) + if LastPushed(last, heads + [a]) == LastPushed(last, heads) then 0 else 1
  {
    assert (heads + [a])[..|heads|] == heads;
  }

  lemma InStepNext(s: Store, view: seq<Hash>, log: seq<Change>,
                   last: Option<Header>, heads: seq<Announcement>, a: Announcement)
    requires forall i :: 0 <= i <= |heads| ==> InStep(s, view, log, last, heads[..i])
    requires InStep(s, view, log, last, heads + [a])
    ensures forall i :: 0 <= i <= |heads + [a]| ==> InStep(s, view, log, last, (heads + [a])[..i])
  {
    forall i | 0 <= i <= |heads + [a]|
      ensures InStep(s, view, log, last, (heads + [a])[..i])
    {
      if i <= |heads| {
        assert (heads + [a])[..i] == heads[..i];
      } else {
        assert (heads + [a])[..i] == heads + [a];
      }
    }
  }

  /** An announcement that moves nothing. */
  lemma StreamedSame(s: Store, view: seq<Hash>, log: seq<Change>,
                     last: Option<Header>, heads: seq<Announcement>, a: Announcement)
    requires Streamed(s, view, log, last, heads)
    requires NextPushed(LastPushed(last, heads), a) == LastPushed(last, heads)
    ensures Streamed(s, view, log, last, heads + [a])
  {
    PushedNext(last, heads, a);
    assert InStep(s, view, log, last, heads) by {
      assert heads[..|heads|] == heads;
    }
    InStepNext(s, view, log, last, heads, a);
  }

  lemma InStepsStill(s: Store, view: seq<Hash>, log: seq<Change>, c: Change,
                     last: Option<Header>, heads: seq<Announcement>)
    requires forall i :: 0 <= i <= |heads| ==> InStep(s, view, log, last, heads[..i])
    ensures forall i :: 0 <= i <= |heads| ==> InStep(s, view, log + [c], last, heads[..i])
  {
    forall i | 0 <= i <= |heads|
      ensures InStep(s, view, log + [c], last, heads[..i])
    {
      InStepStill(s, view, log, c, last, heads[..i]);
    }
  }

  /** Replaying the whole log is being in step. */
  lemma InStepWhole(s: Store, view: seq<Hash>, log: seq<Change>,
                    last: Option<Header>, heads: seq<Announcement>, h: Header)
    requires LastPushed(last, heads) == Some(h) && h.hash in s && |log| == Delivered(last, heads)
    requires Replay(view, log) == Path(s, h.hash)
    ensures InStep(s, view, log, last, heads)
  {
    assert log[..|log|] == log;
  }

  /** An announcement that moves the last pushed block, with its message. */
  lemma StreamedMore(s: Store, view: seq<Hash>, log: seq<Change>, c: Change,
                     last: Option<Header>, heads: seq<Announcement>, a: Announcement)
    requires Streamed(s, view, log, last, heads) && a.block.hash in s
    requires NextPushed(LastPushed(last, heads), a) == Some(a.block) != LastPushed(last, heads)
    requires Bridges(Replay(view, log), Path(s, a.block.hash), c)
    ensures Streamed(s, view, log + [c], last, heads + [a])
  {
    PushedNext(last, heads, a);
    ChainedNext(view, log, c, Path(s, a.block.hash));
    InStepsStill(s, view, log, c, last, heads);
    InStepWhole(s, view, log + [c], last, heads + [a], a.block);
    InStepNext(s, view, log + [c], last, heads, a);
  }

  class Pusher {
    const genesis: Hash
    const chain: Store
    var lastPushed: Option<Header>
    ghost var view: seq<Hash>

    /** The consumer's view is the ancestor path of the last pushed block. */
    ghost predicate Valid()
      reads this
    {
      && Tree(chain, genesis)
      && (lastPushed.Some? ==> Has(chain, lastPushed.value) && view == Path(chain, lastPushed.value.hash))
    }

    constructor (genesis: Hash, chain: Store)
      requires Tree(chain, genesis)
      ensures Valid() && this.genesis == genesis && this.chain == chain
      ensures lastPushed == Some(chain[genesis])
    {
      this.genesis, this.chain := genesis, chain;
      lastPushed, view := Some(chain[genesis]), [genesis];
    }

    /** Highest common ancestor, with the blocks above it on either side, oldest first. Parents are
        looked up by hash and are always found. */
    method GetCommonAncestor(blocka: Header, blockb: Header)
      returns (ancestor: Header, drop: seq<Header>, added: seq<Header>)
      requires Tree(chain, genesis) && Has(chain, blocka) && Has(chain, blockb) && blocka.number <= blockb.number
      ensures var p, q := Path(chain, blocka.hash), Path(chain, blockb.hash);
              && SplitAt(p, q, ancestor.number + 1) && p[ancestor.number] == ancestor.hash && Has(chain, ancestor)
              && Hashes(drop) == p[ancestor.number + 1..] && Hashes(added) == q[ancestor.number + 1..]
    {
      ghost var p, q := Path(chain, blocka.hash), Path(chain, blockb.hash);
      PathLineage(chain, genesis, blocka.hash);
      PathLineage(chain, genesis, blockb.hash);
      ancestor, drop, added := AncestorAlong(blocka, blockb, p, q);
    }

    method AncestorAlong(blocka: Header, blockb: Header, ghost p: seq<Hash>, ghost q: seq<Hash>)
      returns (ancestor: Header, drop: seq<Header>, added: seq<Header>)
      requires Keyed(chain) && Has(chain, blocka) && Has(chain, blockb) && blocka.number <= blockb.number
      requires genesis in chain && chain[genesis].parent == NO_HASH
      requires Lineage(chain, genesis, p, blocka.hash) && Lineage(chain, genesis, q, blockb.hash)
      ensures SplitAt(p, q, ancestor.number + 1) && p[ancestor.number] == ancestor.hash && Has(chain, ancestor)
      ensures Hashes(drop) == p[ancestor.number + 1..] && Hashes(added) == q[ancestor.number + 1..]
    {
      if blockb.parent == blocka.hash {
        WalkDown(chain, genesis, q, blockb.hash, [], blockb);
        LineagesMerge(chain, genesis, p, blocka.hash, q, blockb.hash, blocka.number);
        return blocka, [], [blockb];
      }
      var b := blockb;
      var chainB: seq<Header> := [];
      while b.number > blocka.number
        invariant blocka.number <= b.number && Walked(chain, q, chainB, b)
        decreases b.number
      {
        WalkDown(chain, genesis, q, blockb.hash, chainB, b);
        chainB := chainB + [b];
        b := chain[b.parent];
      }
      ancestor, drop, added := LevelAncestor(blocka, b, chainB, p, q, blockb.hash);
    }

    /** The common ancestor once both sides stand at the same height. */
    method LevelAncestor(blocka: Header, levelb: Header, aboveb: seq<Header>,
                         ghost p: seq<Hash>, ghost q: seq<Hash>, ghost topb: Hash)
      returns (ancestor: Header, drop: seq<Header>, added: seq<Header>)
      requires Keyed(chain) && Has(chain, blocka) && blocka.number == levelb.number
      requires Lineage(chain, genesis, p, blocka.hash) && Lineage(chain, genesis, q, topb)
      requires Walked(chain, q, aboveb, levelb)
      ensures SplitAt(p, q, ancestor.number + 1) && p[ancestor.number] == ancestor.hash && Has(chain, ancestor)
      ensures Hashes(drop) == p[ancestor.number + 1..] && Hashes(added) == q[ancestor.number + 1..]
    {
      var a, b := blocka, levelb;
      var chainA: seq<Header>, chainB := [], aboveb;
      while a.hash != b.hash
        invariant Level(chain, p, q, chainA, a, chainB, b)
        decreases a.number
      {
        LevelDown(chain, genesis, p, blocka.hash, q, topb, chainA, a, chainB, b);
        chainA := chainA + [a];
        a := chain[a.parent];
        chainB := chainB + [b];
        b := chain[b.parent];
      }
      LevelEnds(chain, genesis, p, blocka.hash, q, topb, chainA, a, chainB, b);
      ReversedDescent(chain, p, chainA, a);
      ReversedDescent(chain, q, chainB, b);
      return a, Reverse(chainA), Reverse(chainB);
    }

    /** The notification that moves a consumer from one block to another, none if they are the same. */
    method MakeChange(last: Header, block: Header) returns (change: Option<Change>)
      requires Tree(chain, genesis) && Has(chain, last) && Has(chain, block) && last.number <= block.number
      ensures change.Some? <==> last.hash != block.hash
      ensures change.Some? ==> Bridges(Path(chain, last.hash), Path(chain, block.hash), change.value)
    {
      ghost var p, q := Path(chain, last.hash), Path(chain, block.hash);
      var ancestor, drop, added := GetCommonAncestor(last, block);
      assert |p| == last.number + 1 && p[last.number] == last.hash by { PathShape(chain, genesis, last.hash); }
      assert |q| == block.number + 1 && q[block.number] == block.hash by { PathShape(chain, genesis, block.hash); }
      ChangeMeaning(p, q, ancestor.number, drop, added);
      if |drop| > 0 {
        return Some(Change(2, added, drop));
      } else if |added| > 0 {
        return Some(Change(1, added, []));
      }
      return None;
    }

    /** Announces a new head, unless this node does not lead or the stream is already ahead of it.
        After a successful push the consumer stands exactly on the new head's path; otherwise nothing
        moves. */
    method PushBlockChange(block: Header, isLeader: bool, delivered: bool) returns (sent: Option<Change>)
      requires Valid() && Has(chain, block)
      modifies this
      ensures Valid()
      ensures sent.Some? <==>
              isLeader && old(lastPushed).Some? && old(lastPushed).value.number <= block.number
              && old(lastPushed).value.hash != block.hash
      ensures sent.Some? ==> Bridges(old(view), Path(chain, block.hash), sent.value)
      ensures if sent.Some? && delivered then lastPushed == Some(block) && view == Consume(old(view), sent.value)
              else lastPushed == old(lastPushed) && view == old(view)
    {
      if !isLeader || lastPushed.None? || lastPushed.value.number > block.number {
        return None;
      }
      sent := MakeChange(lastPushed.value, block);
      if sent.Some? && delivered {
        view := Consume(view, sent.value);
        lastPushed := Some(block);
      }
    }

    /** Where the pusher stands after announcements that delivered the log. */
    ghost predicate Tracks(view0: seq<Hash>, log: seq<Change>, last0: Option<Header>, heads: seq<Announcement>)
      reads this
    {
      && lastPushed == LastPushed(last0, heads) && view == Replay(view0, log)
      && Streamed(chain, view0, log, last0, heads)
    }

    /** One announcement of a run. */
    method Announce(a: Announcement, log: seq<Change>,
                    ghost view0: seq<Hash>, ghost last0: Option<Header>, ghost heads: seq<Announcement>)
      returns (log': seq<Change>)
      requires Valid() && Has(chain, a.block) && Tracks(view0, log, last0, heads)
      modifies this
      ensures Valid() && Tracks(view0, log', last0, heads + [a])
    {
      PushedNext(last0, heads, a);
      var sent := PushBlockChange(a.block, a.isLeader, a.delivered);
      if sent.Some? && a.delivered {
        StreamedMore(chain, view0, log, sent.value, last0, heads, a);
        ChainedNext(view0, log, sent.value, Path(chain, a.block.hash));
        log' := log + [sent.value];
      } else {
        StreamedSame(chain, view0, log, last0, heads, a);
        log' := log;
      }
    }

    /** Over any run of heads (extensions, reorgs, unwinds that are skipped, lost leadership and failed
        deliveries) every message continues from the consumer's view at that moment, and after each
        announcement replaying the messages so far ends on the ancestor path of the last pushed block. */
    method Stream(heads: seq<Announcement>) returns (log: seq<Change>)
      requires Valid() && forall i :: 0 <= i < |heads| ==> Has(chain, heads[i].block)
      modifies this
      ensures Valid() && lastPushed == LastPushed(old(lastPushed), heads)
      ensures Streamed(chain, old(view), log, old(lastPushed), heads)
    {
      log := [];
      for n := 0 to |heads|
        invariant Valid() && Tracks(old(view), log, old(lastPushed), heads[..n])
      {
        log := Announce(heads[n], log, old(view), old(lastPushed), heads[..n]);
        assert heads[..n] + [heads[n]] == heads[..n + 1];
      }
      assert heads[..|heads|] == heads;
    }
  }
}
