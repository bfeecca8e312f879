/** The feed of event/feed.go run by one goroutine at a time: Send works in place on the
    array behind sendCases, of which its local case list is a prefix. */
module Feeds {
  import opened CaseList

  /** The feed's own removeSub channel, the fixed first entry of sendCases. */
  const REMOVE_SUB: Chan := 0

  lemma {:induction false} FindIs(cs: seq<Chan>, ch: Chan, i: nat)
    requires i < |cs| && cs[i] == ch && ch !in cs[..i]
    ensures Find(cs, ch) == i
  {
    var f := Find(cs, ch);
    forall k | 0 <= k < i
      ensures cs[k] != ch
    {
      assert cs[k] in cs[..i];
    }
    forall k | 0 <= k < f
      ensures cs[k] != ch
    {
      assert cs[k] in cs[..f];
    }
  }

  /** What shifting the cases behind index to the left leaves in the first n places. */
  lemma Shifted(was: seq<Chan>, now: seq<Chan>, index: nat, n: nat)
    requires 1 <= index <= n < |was| == |now|
    requires forall k :: 0 <= k < index ==> now[k] == was[k]
    requires forall k :: index <= k < n ==> now[k] == was[k + 1]
    ensures now[1..n] == Delete(was[1..n + 1], index - 1)
    ensures now[0] == was[0] && forall k :: 1 <= k < n ==> now[k] == was[k] || now[k] == was[k + 1]
  {
  }

  /** Removals received so far are the dropped and the late ones. */
  ghost predicate Served(done: seq<Chan>, r: Round, ch: Chan) {
    Count(done, ch) == r.dropped[ch] + r.late[ch]
  }

  /** Of the requests, done were received, and each one left still has its case. */
  ghost predicate Serving(requests: seq<Chan>, done: seq<Chan>, r: Round) {
    && done <= requests && (forall ch :: Served(done, r, ch))
    && forall ch :: Count(requests, ch) <= r.start[ch]
  }

  /** The next request always finds its case. */
  lemma NextFound(requests: seq<Chan>, done: seq<Chan>, cs: seq<Chan>, n: nat, r: Round)
    requires Serving(requests, done, r) && |done| < |requests| && Tracks(cs, n, r) && n <= |cs|
    ensures requests[|done|] in cs
  {
    var ch := requests[|done|];
    assert Accounts(cs, n, r, ch) && Served(done, r, ch);
    Split(cs, n);
    assert requests == done + [ch] + requests[|done| + 1..];
    assert Count(requests, ch) >= Count(done, ch) + 1;
  }

  /** Receiving the next request. */
  lemma ServeNext(requests: seq<Chan>, done: seq<Chan>, r: Round, active: bool)
    requires Serving(requests, done, r) && |done| < |requests|
    ensures Serving(requests, done + [requests[|done|]], Removed(r, requests[|done|], active))
  {
    var r', done' := Removed(r, requests[|done|], active), done + [requests[|done|]];
    forall ch
      ensures Served(done', r', ch)
    {
      assert Served(done, r, ch);
    }
  }

  lemma ServeOn(requests: seq<Chan>, done: seq<Chan>, r0: Round, r: Round)
    requires Serving(requests, done, r0) && r.start == r0.start && r.dropped == r0.dropped && r.late == r0.late
    ensures Serving(requests, done, r)
  {
    forall ch
      ensures Served(done, r, ch)
    {
      assert Served(done, r0, ch);
    }
  }

  /** What a finished Send has done. */
  lemma SendEnds(cs: seq<Chan>, r: Round, requests: seq<Chan>, done: seq<Chan>)
    requires Tracks(cs, 0, r) && Serving(requests, done, r)
    ensures forall ch :: r.dropped[ch] + r.late[ch] == Count(done, ch)
    ensures forall ch :: r.sent[ch] + r.dropped[ch] == r.start[ch]
    ensures forall ch :: Count(cs, ch) + Count(done, ch) == r.start[ch]
  {
    TracksEnd(cs, r);
    forall ch
      ensures r.dropped[ch] + r.late[ch] == Count(done, ch)
      ensures Count(cs, ch) + Count(done, ch) == r.start[ch]
    {
      assert Served(done, r, ch);
    }
  }

  class Feed {
    var buf: array<Chan>
    var len: nat
    var inbox: seq<Chan>

    ghost predicate Valid()
      reads this, buf
    {
      && 1 <= len <= buf.Length && buf[0] == REMOVE_SUB
      && (forall k :: 1 <= k < len ==> buf[k] != REMOVE_SUB) && REMOVE_SUB !in inbox
    }

    /** The subscribed part of sendCases. */
    ghost function Cases(): seq<Chan>
      reads this, buf
      requires Valid()
    {
      buf[1..len]
    }

    constructor ()
      ensures Valid() && fresh(buf) && Cases() == [] && inbox == []
    {
      buf := new Chan[1](_ => REMOVE_SUB);
      len, inbox := 1, [];
    }

    /** New channels wait in the inbox for the next Send. */
    method Subscribe(ch: Chan)
      requires Valid() && ch != REMOVE_SUB
      modifies this`inbox
      ensures Valid() && inbox == old(inbox) + [ch]
    {
      inbox := inbox + [ch];
    }

    /** Index of the first case for the channel in sendCases, -1 if absent. */
    method FindCase(ch: Chan) returns (index: int)
      requires Valid() && ch != REMOVE_SUB
      ensures index == if Find(Cases(), ch) == -1 then -1 else Find(Cases(), ch) + 1
    {
      index := 0;
      while index < len
        invariant 0 <= index <= len && ch !in buf[..index]
      {
        if buf[index] == ch {
          FindIs(Cases(), ch, index - 1);
          return;
        }
        index := index + 1;
      }
      return -1;
    }

    /** Removes the case at index, shifting the rest of the array left. */
    method DeleteAt(index: nat)
      requires Valid() && 1 <= index < len
      modifies this`len, buf
      ensures Valid() && buf == old(buf) && Cases() == Delete(old(Cases()), index - 1)
    {
      ghost var was := buf[..];
      var j := index;
      while j + 1 < len
        invariant index <= j < len == old(len) && buf == old(buf) && len <= buf.Length
        invariant forall k :: 0 <= k < index || j <= k < buf.Length ==> buf[k] == was[k]
        invariant forall k :: index <= k < j ==> buf[k] == was[k + 1]
      {
        buf[j] := buf[j + 1];
        j := j + 1;
      }
      len := len - 1;
      Shifted(was, buf[..], index, len);
    }

    /** Moves the case at index behind the first n. */
    method DeactivateAt(n: nat, index: nat)
      requires Valid() && 1 <= index < n <= len
      modifies buf
      ensures Valid() && Cases() == Deactivate(old(Cases()), n - 1, index - 1)
    {
      buf[index], buf[n - 1] := buf[n - 1], buf[index];
    }

    /** Tries every active case once without blocking. The environment decides which sends succeed. */
    method TryAll(n0: nat, log0: seq<Chan>, ghost r0: Round) returns (n: nat, log: seq<Chan>, ghost r: Round)
      requires Valid() && 1 <= n0 <= len && Tracks(Cases(), n0 - 1, r0)
      requires multiset(log0) == r0.sent
      modifies buf
      ensures Valid() && 1 <= n <= n0 && Tracks(Cases(), n - 1, r)
      ensures multiset(log) == r.sent && |log| - |log0| == n0 - n
      ensures r.start == r0.start && r.dropped == r0.dropped && r.late == r0.late
    {
      n, log, r := n0, log0, r0;
      var i := 1;
      while i < n
        invariant Valid() && 1 <= i <= n <= n0 && Tracks(Cases(), n - 1, r)
        invariant multiset(log) == r.sent && |log| - |log0| == n0 - n
        invariant r.start == r0.start && r.dropped == r0.dropped && r.late == r0.late
        decreases n - i
      {
        if * {
          n, log, r := Delivered(n, i, log, r);
        } else {
          i := i + 1;
        }
      }
    }

    /** Bookkeeping of one successful send to the case at index. */
    method Delivered(n0: nat, index: nat, log0: seq<Chan>, ghost r0: Round)
      returns (n: nat, log: seq<Chan>, ghost r: Round)
      requires Valid() && 1 <= index < n0 <= len && Tracks(Cases(), n0 - 1, r0)
      requires multiset(log0) == r0.sent
      modifies buf
      ensures Valid() && n == n0 - 1 && Tracks(Cases(), n - 1, r)
      ensures r == Sent(r0, old(buf[index])) && log == log0 + [old(buf[index])] && multiset(log) == r.sent
    {
      log := log0 + [buf[index]];
      r := Sent(r0, buf[index]);
      ghost var cs := Cases();
      assert cs[index - 1] == buf[index];
      TracksSend(cs, n0 - 1, r0, index - 1);
      DeactivateAt(n0, index);
      n := n0 - 1;
    }

    /** Removal of a channel received while sending; a case that was still active shrinks the prefix. */
    method RemoveDuringSend(ch: Chan, n0: nat, ghost r0: Round) returns (n: nat, ghost r: Round)
      requires Valid() && ch != REMOVE_SUB && 1 <= n0 <= len && ch in Cases()
      requires Tracks(Cases(), n0 - 1, r0)
      modifies this`len, buf
      ensures Valid() && buf == old(buf) && len == old(len) - 1 && n <= len
      ensures var active := Find(old(Cases()), ch) < n0 - 1;
              n == (if active then n0 - 1 else n0) && r == Removed(r0, ch, active)
      ensures Tracks(Cases(), n - 1, r) && Cases() == Delete(old(Cases()), Find(old(Cases()), ch))
    {
      ghost var cs := Cases();
      var index := FindCase(ch);
      ghost var active := index < n0;
      assert cs[index - 1] == ch;
      TracksRemove(cs, n0 - 1, r0, index - 1);
      r := Removed(r0, ch, active);
      n := n0;
      if index < n {
        n := n - 1;
      }
      assert Tracks(Delete(cs, index - 1), n - 1, r);
      DeleteAt(index);
    }

    /** Takes the inbox into sendCases, on a new array. */
    method MergeInbox()
      requires Valid()
      modifies this
      ensures Valid() && inbox == [] && fresh(buf) && Cases() == old(Cases()) + old(inbox)
    {
      var merged := buf[..len] + inbox;
      var next := new Chan[|merged|](i requires 0 <= i < |merged| => merged[i]);
      assert next[..] == merged;
      buf, len, inbox := next, |merged|, [];
      assert buf[1..len] == merged[1..];
    }

    /** The next removal request is received while sending. */
    method ReceiveRequest(n0: nat, ghost r0: Round, requests: seq<Chan>, done0: seq<Chan>)
      returns (n: nat, ghost r: Round, done: seq<Chan>)
      requires Valid() && 1 < n0 <= len && Tracks(Cases(), n0 - 1, r0) && |done0| < |requests|
      requires REMOVE_SUB !in requests && Serving(requests, done0, r0)
      modifies this`len, buf
      ensures Valid() && buf == old(buf) && 1 <= n <= n0 && n <= len && len == old(len) - 1
      ensures Tracks(Cases(), n - 1, r) && r.sent == r0.sent && r.start == r0.start
      ensures Serving(requests, done, r) && |done| == |done0| + 1
    {
      var ch := requests[|done0|];
      assert ch in requests;
      NextFound(requests, done0, Cases(), n0 - 1, r0);
      ServeNext(requests, done0, r0, Find(Cases(), ch) < n0 - 1);
      done := done0 + [ch];
      n, r := RemoveDuringSend(ch, n0, r0);
    }

    /** One blocking select over the removeSub channel and the active cases: the next removal request is
        received, if there is one, or some active case is sent to. */
    method SelectOne(n0: nat, log0: seq<Chan>, ghost r0: Round, requests: seq<Chan>, done0: seq<Chan>)
      returns (n: nat, log: seq<Chan>, ghost r: Round, done: seq<Chan>)
      requires Valid() && 1 < n0 <= len && Tracks(Cases(), n0 - 1, r0) && multiset(log0) == r0.sent
      requires REMOVE_SUB !in requests && Serving(requests, done0, r0)
      modifies this`len, buf
      ensures Valid() && buf == old(buf) && 1 <= n <= len && len + n < old(len) + n0
      ensures Tracks(Cases(), n - 1, r) && multiset(log) == r.sent && r.start == r0.start
      ensures Serving(requests, done, r)
      ensures (done == done0 && |log| == |log0| + 1 && r.dropped == r0.dropped && r.late == r0.late)
           || (|done| == |done0| + 1 && log == log0)
    {
      assert 0 <= 1 < n0;
      var chosen :| 0 <= chosen < n0 && (chosen == 0 ==> |done0| < |requests|);
      if chosen == 0 {
        log := log0;
        n, r, done := ReceiveRequest(n0, r0, requests, done0);
      } else {
        done := done0;
        n, log, r := Delivered(n0, chosen, log0, r0);
        ServeOn(requests, done, r0, r);
      }
    }

    /** Delivers a value to all subscribed channels, whatever sends succeed in whatever order and whichever
        of the removal requests arriving meanwhile are received. Every case the Send started with gets
        the value exactly once, except for one case per received request that came before its delivery;
        the count returned is the number of deliveries, and sendCases ends as a permutation of the start
        minus the cases of the received requests. */
    method Send(requests: seq<Chan>) returns (nsent: nat, log: seq<Chan>, ghost r: Round, done: seq<Chan>)
      requires Valid() && REMOVE_SUB !in requests
      requires forall ch :: Count(requests, ch) <= Count(Cases() + inbox, ch)
      modifies this, buf
      ensures Valid() && inbox == [] && fresh(buf)
      ensures nsent == |log| && multiset(log) == r.sent && r.start == multiset(old(Cases()) + old(inbox))
      ensures done <= requests && forall ch :: r.dropped[ch] + r.late[ch] == Count(done, ch)
      ensures forall ch :: r.sent[ch] + r.dropped[ch] == r.start[ch]
      ensures forall ch :: Count(Cases(), ch) + Count(done, ch) == r.start[ch]
    {
      MergeInbox();
      TracksStart(Cases());
      var n := len;
      nsent, log, r, done := 0, [], Started(Cases()), [];
      while true
        invariant Valid() && inbox == [] && fresh(buf) && 1 <= n <= len && Tracks(Cases(), n - 1, r)
        invariant nsent == |log| && multiset(log) == r.sent && r.start == multiset(old(Cases()) + old(inbox))
        invariant Serving(requests, done, r)
        decreases len + n
      {
        ghost var r0 := r;
        n, log, r := TryAll(n, log, r);
        ServeOn(requests, done, r0, r);
        nsent := |log|;
        if n == 1 {
          break;
        }
        n, log, r, done := SelectOne(n, log, r, requests, done);
        nsent := |log|;
      }
      SendEnds(Cases(), r, requests, done);
    }

    /** Unsubscribing while no Send runs: from the inbox if the channel is there, else from sendCases. */
    method RemoveIdle(ch: Chan)
      requires Valid() && ch != REMOVE_SUB && (ch in inbox || ch in Cases())
      modifies this, buf
      ensures Valid() && buf == old(buf)
      ensures ch in old(inbox) ==>
                inbox == Delete(old(inbox), Find(old(inbox), ch)) && Cases() == old(Cases())
      ensures ch !in old(inbox) ==>
                inbox == old(inbox) && Cases() == Delete(old(Cases()), Find(old(Cases()), ch))
    {
      var index := Find(inbox, ch);
      if index != -1 {
        inbox := Delete(inbox, index);
        return;
      }
      index := FindCase(ch);
      DeleteAt(index);
    }
  }
}
