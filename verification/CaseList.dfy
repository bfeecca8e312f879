/** The case list operations of event/feed.go as functions on sequences. */
module CaseList {
  /** A channel, by identity. */
  type Chan = nat

  /** Index of the first case for the channel, if any. */
  function Find(cs: seq<Chan>, ch: Chan): (r: int)
    ensures r == -1 <==> ch !in cs
    ensures r != -1 ==> 0 <= r < |cs| && cs[r] == ch && ch !in cs[..r]
  {
    if cs == [] then -1
    else if cs[0] == ch then 0
    else
      var r := Find(cs[1..], ch);
      assert r != -1 ==> cs[..r + 1] == [cs[0]] + cs[1..][..r];
      if r == -1 then -1 else r + 1
  }

  function Delete(cs: seq<Chan>, i: nat): seq<Chan>
    requires i < |cs|
  {
    cs[..i] + cs[i + 1..]
  }

  /** Swaps the case at i with the last of the first n, which thereby leaves the active prefix. */
  function Deactivate(cs: seq<Chan>, n: nat, i: nat): seq<Chan>
    requires i < n <= |cs|
  {
    cs[i := cs[n - 1]][n - 1 := cs[i]]
  }

  lemma Split(cs: seq<Chan>, i: nat)
    requires i <= |cs|
    ensures multiset(cs) == multiset(cs[..i]) + multiset(cs[i..])
  {
    assert cs == cs[..i] + cs[i..];
  }

  lemma Extract(cs: seq<Chan>, i: nat)
    requires i < |cs|
    ensures multiset(cs) == multiset(Delete(cs, i)) + multiset{cs[i]}
  {
    assert cs == cs[..i] + [cs[i]] + cs[i + 1..];
  }

  lemma DeleteBefore(cs: seq<Chan>, n: nat, i: nat)
    requires i < n <= |cs|
    ensures multiset(cs[..n]) == multiset(Delete(cs, i)[..n - 1]) + multiset{cs[i]}
    ensures Delete(cs, i)[n - 1..] == cs[n..]
  {
    Extract(cs[..n], i);
    assert Delete(cs[..n], i) == Delete(cs, i)[..n - 1];
  }

  lemma DeleteBehind(cs: seq<Chan>, n: nat, i: nat)
    requires n <= i < |cs|
    ensures Delete(cs, i)[..n] == cs[..n]
    ensures multiset(cs[n..]) == multiset(Delete(cs, i)[n..]) + multiset{cs[i]}
  {
    Extract(cs[n..], i - n);
    assert Delete(cs[n..], i - n) == Delete(cs, i)[n..];
  }

  /** The active side of a deactivation. */
  lemma DeactivateFront(cs: seq<Chan>, n: nat, i: nat)
    requires i < n <= |cs|
    ensures multiset(cs[..n]) == multiset(Deactivate(cs, n, i)[..n - 1]) + multiset{cs[i]}
  {
    var front := cs[..n - 1];
    assert cs[..n] == front + [cs[n - 1]];
    if i == n - 1 {
      assert Deactivate(cs, n, i)[..n - 1] == front;
    } else {
      assert Deactivate(cs, n, i)[..n - 1] == front[i := cs[n - 1]];
    }
  }

  /** And the inactive one. */
  lemma DeactivateBack(cs: seq<Chan>, n: nat, i: nat)
    requires i < n <= |cs|
    ensures |Deactivate(cs, n, i)| == |cs|
    ensures multiset(Deactivate(cs, n, i)[n - 1..]) == multiset(cs[n..]) + multiset{cs[i]}
  {
    assert Deactivate(cs, n, i)[n - 1..] == [cs[i]] + cs[n..];
  }

  /** One case moved across the boundary leaves the same cases. */
  lemma Moved(cs: seq<Chan>, r: seq<Chan>, n: nat, ch: Chan)
    requires 0 < n <= |cs| == |r|
    requires multiset(cs[..n]) == multiset(r[..n - 1]) + multiset{ch}
    requires multiset(r[n - 1..]) == multiset(cs[n..]) + multiset{ch}
    ensures multiset(r) == multiset(cs)
  {
    Split(cs, n);
    Split(r, n - 1);
  }

  /** Deactivating moves exactly one case across the boundary and loses none. */
  lemma DeactivateSides(cs: seq<Chan>, n: nat, i: nat)
    requires i < n <= |cs|
    ensures multiset(Deactivate(cs, n, i)) == multiset(cs)
    ensures multiset(cs[..n]) == multiset(Deactivate(cs, n, i)[..n - 1]) + multiset{cs[i]}
    ensures multiset(Deactivate(cs, n, i)[n - 1..]) == multiset(cs[n..]) + multiset{cs[i]}
  {
    DeactivateFront(cs, n, i);
    DeactivateBack(cs, n, i);
    var r := Deactivate(cs, n, i);
    Moved(cs, r, n, cs[i]);
  }

  function Count(cs: seq<Chan>, ch: Chan): nat {
    multiset(cs)[ch]
  }

  /** What a Send has done: the cases it started with, those delivered to, those removed before delivery
      and those removed after it. */
  datatype Round = Round(start: multiset<Chan>, sent: multiset<Chan>, dropped: multiset<Chan>, late: multiset<Chan>)

  function Started(cs: seq<Chan>): Round {
    Round(multiset(cs), multiset{}, multiset{}, multiset{})
  }

  function Sent(r: Round, ch: Chan): Round {
    r.(sent := r.sent + multiset{ch})
  }

  function Removed(r: Round, ch: Chan, active: bool): Round {
    if active then r.(dropped := r.dropped + multiset{ch}) else r.(late := r.late + multiset{ch})
  }

  /** The starting cases of the channel are split into delivered, dropped and still active ones, and the
      inactive cases are the delivered ones not removed since. */
  ghost predicate Accounts(cs: seq<Chan>, active: nat, r: Round, ch: Chan) {
    && active <= |cs|
    && r.start[ch] == r.sent[ch] + r.dropped[ch] + Count(cs[..active], ch)
    && r.sent[ch] == Count(cs[active..], ch) + r.late[ch]
  }

  lemma StartAccounts(cs: seq<Chan>, ch: Chan)
    ensures Accounts(cs, |cs|, Started(cs), ch)
  {
    assert cs[..|cs|] == cs;
  }

  lemma SendAccounts(cs: seq<Chan>, active: nat, r: Round, i: nat, ch: Chan)
    requires Accounts(cs, active, r, ch) && i < active
    ensures Accounts(Deactivate(cs, active, i), active - 1, Sent(r, cs[i]), ch)
  {
    DeactivateSides(cs, active, i);
  }

  lemma RemoveAccounts(cs: seq<Chan>, active: nat, r: Round, i: nat, ch: Chan)
    requires Accounts(cs, active, r, ch) && i < |cs|
    ensures Accounts(Delete(cs, i), if i < active then active - 1 else active, Removed(r, cs[i], i < active), ch)
  {
    if i < active {
      DeleteBefore(cs, active, i);
    } else {
      DeleteBehind(cs, active, i);
    }
  }

  ghost predicate Tracks(cs: seq<Chan>, active: nat, r: Round) {
    forall ch :: Accounts(cs, active, r, ch)
  }

  lemma TracksStart(cs: seq<Chan>)
    ensures Tracks(cs, |cs|, Started(cs))
  {
    forall ch
      ensures Accounts(cs, |cs|, Started(cs), ch)
    {
      StartAccounts(cs, ch);
    }
  }

  lemma TracksSend(cs: seq<Chan>, active: nat, r: Round, i: nat)
    requires Tracks(cs, active, r) && i < active <= |cs|
    ensures Tracks(Deactivate(cs, active, i), active - 1, Sent(r, cs[i]))
  {
    var cs', n, r' := Deactivate(cs, active, i), active - 1, Sent(r, cs[i]);
    forall ch
      ensures Accounts(cs', n, r', ch)
    {
      assert Accounts(cs, active, r, ch);
      SendAccounts(cs, active, r, i, ch);
    }
  }

  lemma TracksRemove(cs: seq<Chan>, active: nat, r: Round, i: nat)
    requires Tracks(cs, active, r) && i < |cs|
    ensures Tracks(Delete(cs, i), if i < active then active - 1 else active, Removed(r, cs[i], i < active))
  {
    var cs', n, r' := Delete(cs, i), if i < active then active - 1 else active, Removed(r, cs[i], i < active);
    forall ch
      ensures Accounts(cs', n, r', ch)
    {
      assert Accounts(cs, active, r, ch);
      RemoveAccounts(cs, active, r, i, ch);
    }
  }

  /** With nothing active left, each channel got the value once for every case the Send started with
      except those removed before delivery, and what is left is the start minus all removals. */
  lemma RoundEnds(cs: seq<Chan>, r: Round, ch: Chan)
    requires Accounts(cs, 0, r, ch)
    ensures r.sent[ch] + r.dropped[ch] == r.start[ch]
    ensures Count(cs, ch) + r.dropped[ch] + r.late[ch] == r.start[ch]
  {
    assert cs[0..] == cs && cs[..0] == [];
  }

  lemma TracksEnd(cs: seq<Chan>, r: Round)
    requires Tracks(cs, 0, r)
    ensures forall ch :: r.sent[ch] + r.dropped[ch] == r.start[ch]
    ensures forall ch :: Count(cs, ch) + r.dropped[ch] + r.late[ch] == r.start[ch]
  {
    forall ch
      ensures r.sent[ch] + r.dropped[ch] == r.start[ch]
      ensures Count(cs, ch) + r.dropped[ch] + r.late[ch] == r.start[ch]
    {
      assert Accounts(cs, 0, r, ch);
      RoundEnds(cs, r, ch);
    }
  }
}
