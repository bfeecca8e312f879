/** The concurrent protocol of event/feed.go: Subscribe, Unsubscribe and Send interleaved
    step by step over the inbox, the send lock and the removeSub channel. */
module FeedProtocol {
  import opened CaseList

  /** A subscription is live until its one Unsubscribe starts; it then either leaves from the inbox at
      once, or waits to hand its channel to a running Send or to take the send lock itself. */
  datatype Status = Live | Waiting | Holding | Closed

  datatype Sub = Sub(ch: Chan, status: Status)

  datatype Lock = Free | BySend | ByRemove(id: nat)

  /** Where the Send that owns the lock stands: before merging the inbox, selecting over the first
      active cases, or holding a channel it received for removal. */
  datatype Phase = Idle | Locked | Selecting(active: nat) | Received(active: nat, ch: Chan)

  /** cases leaves out the fixed first entry of sendCases. crashed records a delete at index -1. */
  datatype State = State(subs: seq<Sub>, inbox: seq<Chan>, cases: seq<Chan>, lock: Lock, phase: Phase,
                         round: Round, crashed: bool)

  datatype Step =
    | Subscribe(ch: Chan)
    | CancelInInbox(id: nat)
    | AwaitRemoval(id: nat)
    | TakeLock(id: nat)
    | DeleteHeld(id: nat)
    | ReleaseHeld(id: nat)
    | BeginSend
    | MergeInbox
    | Deliver(i: nat)
    | ReceiveRemoval(id: nat)
    | DeleteReceived
    | EndSend

  const INIT := State([], [], [], Free, Idle, Started([]), false)

  predicate Is(s: State, id: nat, st: Status) {
    id < |s.subs| && s.subs[id].status == st
  }

  predicate Enabled(s: State, step: Step) {
    match step
    case Subscribe(_) => true
    case CancelInInbox(id) => Is(s, id, Live) && s.subs[id].ch in s.inbox
    case AwaitRemoval(id) => Is(s, id, Live) && s.subs[id].ch !in s.inbox
    case TakeLock(id) => Is(s, id, Waiting) && s.lock.Free?
    case DeleteHeld(id) => Is(s, id, Holding) && s.lock == ByRemove(id)
    case ReleaseHeld(id) => Is(s, id, Closed) && s.lock == ByRemove(id)
    case BeginSend => s.lock.Free?
    case MergeInbox => s.phase.Locked?
    case Deliver(i) => s.phase.Selecting? && i < s.phase.active <= |s.cases|
    case ReceiveRemoval(id) => s.phase.Selecting? && s.phase.active > 0 && Is(s, id, Waiting)
    case DeleteReceived => s.phase.Received?
    case EndSend => s.phase == Selecting(0)
  }

  function SetStatus(s: State, id: nat, st: Status): State
    requires id < |s.subs|
  {
    s.(subs := s.subs[id := s.subs[id].(status := st)])
  }

  /** Deletes the first case for the channel, or crashes when there is none. */
  function DeleteCase(s: State, ch: Chan): State {
    var i := Find(s.cases, ch);
    if i == -1 then s.(crashed := true) else s.(cases := Delete(s.cases, i))
  }

  function Apply(s: State, step: Step): State
    requires Enabled(s, step)
  {
    match step
    case Subscribe(ch) => s.(subs := s.subs + [Sub(ch, Live)], inbox := s.inbox + [ch])
    case CancelInInbox(id) =>
      SetStatus(s, id, Closed).(inbox := Delete(s.inbox, Find(s.inbox, s.subs[id].ch)))
    case AwaitRemoval(id) => SetStatus(s, id, Waiting)
    case TakeLock(id) => SetStatus(s, id, Holding).(lock := ByRemove(id))
    case DeleteHeld(id) => DeleteCase(SetStatus(s, id, Closed), s.subs[id].ch)
    case ReleaseHeld(id) => s.(lock := Free)
    case BeginSend => s.(lock := BySend, phase := Locked)
    case MergeInbox =>
      var cases := s.cases + s.inbox;
      s.(cases := cases, inbox := [], phase := Selecting(|cases|),
         round := Started(cases))
    case Deliver(i) =>
      s.(cases := Deactivate(s.cases, s.phase.active, i), phase := Selecting(s.phase.active - 1),
         round := Sent(s.round, s.cases[i]))
    case ReceiveRemoval(id) =>
      SetStatus(s, id, Closed).(phase := Received(s.phase.active, s.subs[id].ch))
    case DeleteReceived =>
      var ch, active := s.phase.ch, s.phase.active;
      var wasActive := 0 <= Find(s.cases, ch) < active;
      DeleteCase(s, ch).(phase := Selecting(if wasActive then active - 1 else active),
                         round := Removed(s.round, ch, wasActive))
    case EndSend => s.(lock := Free, phase := Idle)
  }

  ghost function One(sub: Sub, sts: set<Status>, ch: Chan): nat {
    if sub.status in sts && sub.ch == ch then 1 else 0
  }

  /** Number of subscriptions of the channel in one of the given states. */
  ghost function Tally(subs: seq<Sub>, sts: set<Status>, ch: Chan): nat {
    if subs == [] then 0
    else Tally(subs[..|subs| - 1], sts, ch) + One(subs[|subs| - 1], sts, ch)
  }

  lemma {:induction false} TallyUpdate(subs: seq<Sub>, id: nat, sub: Sub, sts: set<Status>, ch: Chan)
    requires id < |subs|
    ensures Tally(subs[id := sub], sts, ch) + One(subs[id], sts, ch) == Tally(subs, sts, ch) + One(sub, sts, ch)
  {
    var n := |subs| - 1;
    var next := subs[id := sub];
    if id == n {
      assert next[..n] == subs[..n];
    } else {
      TallyUpdate(subs[..n], id, sub, sts, ch);
      assert next[..n] == subs[..n][id := sub];
    }
  }

  lemma {:induction false} TallyHolds(subs: seq<Sub>, id: nat, sts: set<Status>)
    requires id < |subs| && subs[id].status in sts
    ensures Tally(subs, sts, subs[id].ch) > 0
  {
    if id < |subs| - 1 {
      TallyHolds(subs[..|subs| - 1], id, sts);
    }
  }

  const PENDING := {Waiting, Holding}

  /** Removals of the channel that still have to find their case in sendCases, counting the one a Send
      has received but not deleted yet. */
  ghost function Pending(s: State, ch: Chan): nat {
    Tally(s.subs, PENDING, ch) + if s.phase.Received? && s.phase.ch == ch then 1 else 0
  }

  /** Entries of the channel in inbox and sendCases are its live subscriptions plus its pending removals,
      and every pending removal has its entry in sendCases. */
  ghost predicate Balanced(s: State, ch: Chan) {
    && Count(s.inbox, ch) + Count(s.cases, ch) == Tally(s.subs, {Live}, ch) + Pending(s, ch)
    && Pending(s, ch) <= Count(s.cases, ch)
  }

  /** The lock has one owner, and a remover that owns it has not been served otherwise. */
  ghost predicate LockOk(s: State) {
    && (s.lock.BySend? <==> !s.phase.Idle?)
    && (forall id :: Is(s, id, Holding) ==> s.lock == ByRemove(id))
    && (s.lock.ByRemove? ==> Is(s, s.lock.id, Holding) || Is(s, s.lock.id, Closed))
  }

  ghost predicate RoundOk(s: State, ch: Chan) {
    s.phase.Selecting? || s.phase.Received? ==> Accounts(s.cases, s.phase.active, s.round, ch)
  }

  ghost predicate Inv(s: State) {
    && (forall ch :: Balanced(s, ch)) && LockOk(s) && (forall ch :: RoundOk(s, ch)) && !s.crashed
  }

  lemma SubscribeKeeps(s: State, new_: Chan, ch: Chan)
    requires Balanced(s, ch)
    ensures Balanced(Apply(s, Subscribe(new_)), ch)
  {
    var t := Apply(s, Subscribe(new_));
    assert t.subs[..|s.subs|] == s.subs;
  }

  lemma CancelKeeps(s: State, id: nat, ch: Chan)
    requires Balanced(s, ch) && Enabled(s, CancelInInbox(id))
    ensures Balanced(Apply(s, CancelInInbox(id)), ch)
  {
    TallyUpdate(s.subs, id, s.subs[id].(status := Closed), {Live}, ch);
    TallyUpdate(s.subs, id, s.subs[id].(status := Closed), PENDING, ch);
    Extract(s.inbox, Find(s.inbox, s.subs[id].ch));
  }

  /** With the channel absent from the inbox, all its entries are in sendCases. */
  lemma AwaitKeeps(s: State, id: nat, ch: Chan)
    requires Balanced(s, ch) && Enabled(s, AwaitRemoval(id))
    ensures Balanced(Apply(s, AwaitRemoval(id)), ch)
  {
    TallyUpdate(s.subs, id, s.subs[id].(status := Waiting), {Live}, ch);
    TallyUpdate(s.subs, id, s.subs[id].(status := Waiting), PENDING, ch);
    if ch == s.subs[id].ch {
      assert Count(s.inbox, ch) == 0;
    }
  }

  lemma TakeLockKeeps(s: State, id: nat, ch: Chan)
    requires Balanced(s, ch) && Enabled(s, TakeLock(id))
    ensures Balanced(Apply(s, TakeLock(id)), ch)
  {
    TallyUpdate(s.subs, id, s.subs[id].(status := Holding), {Live}, ch);
    TallyUpdate(s.subs, id, s.subs[id].(status := Holding), PENDING, ch);
  }

  /** A remover that holds the lock always finds its case. */
  lemma HeldFound(s: State, id: nat)
    requires Is(s, id, Holding) && Balanced(s, s.subs[id].ch)
    ensures s.subs[id].ch in s.cases
  {
    TallyHolds(s.subs, id, PENDING);
    assert Count(s.cases, s.subs[id].ch) > 0;
  }

  lemma DeleteHeldKeeps(s: State, id: nat, ch: Chan)
    requires Balanced(s, ch) && Enabled(s, DeleteHeld(id)) && s.subs[id].ch in s.cases
    ensures Balanced(Apply(s, DeleteHeld(id)), ch)
  {
    TallyUpdate(s.subs, id, s.subs[id].(status := Closed), {Live}, ch);
    TallyUpdate(s.subs, id, s.subs[id].(status := Closed), PENDING, ch);
    Extract(s.cases, Find(s.cases, s.subs[id].ch));
  }

  lemma MergeKeeps(s: State, ch: Chan)
    requires Balanced(s, ch) && Enabled(s, MergeInbox)
    ensures Balanced(Apply(s, MergeInbox), ch) && RoundOk(Apply(s, MergeInbox), ch)
  {
    StartAccounts(s.cases + s.inbox, ch);
  }

  lemma DeliverKeeps(s: State, i: nat, ch: Chan)
    requires Balanced(s, ch) && Enabled(s, Deliver(i))
    ensures Balanced(Apply(s, Deliver(i)), ch)
  {
    DeactivateSides(s.cases, s.phase.active, i);
  }

  lemma DeliverRound(s: State, i: nat, ch: Chan)
    requires RoundOk(s, ch) && Enabled(s, Deliver(i))
    ensures RoundOk(Apply(s, Deliver(i)), ch)
  {
    var t, n := Apply(s, Deliver(i)), s.phase.active - 1;
    var cs, r := Deactivate(s.cases, s.phase.active, i), Sent(s.round, s.cases[i]);
    assert t.cases == cs && t.phase == Selecting(n) && t.round == r;
    assert Accounts(cs, n, r, ch) by {
      SendAccounts(s.cases, s.phase.active, s.round, i, ch);
    }
  }

  lemma ReceiveKeeps(s: State, id: nat, ch: Chan)
    requires Balanced(s, ch) && RoundOk(s, ch) && Enabled(s, ReceiveRemoval(id))
    ensures Balanced(Apply(s, ReceiveRemoval(id)), ch) && RoundOk(Apply(s, ReceiveRemoval(id)), ch)
  {
    TallyUpdate(s.subs, id, s.subs[id].(status := Closed), {Live}, ch);
    TallyUpdate(s.subs, id, s.subs[id].(status := Closed), PENDING, ch);
  }

  /** A Send always finds the case of a channel it received. */
  lemma ReceivedFound(s: State)
    requires s.phase.Received? && Balanced(s, s.phase.ch)
    ensures s.phase.ch in s.cases
  {
    assert Count(s.cases, s.phase.ch) > 0;
  }

  lemma DeleteReceivedKeeps(s: State, ch: Chan)
    requires Balanced(s, ch) && Enabled(s, DeleteReceived) && s.phase.ch in s.cases
    ensures Balanced(Apply(s, DeleteReceived), ch)
  {
    Extract(s.cases, Find(s.cases, s.phase.ch));
  }

  lemma DeleteReceivedRound(s: State, ch: Chan)
    requires RoundOk(s, ch) && Enabled(s, DeleteReceived) && s.phase.ch in s.cases
    ensures RoundOk(Apply(s, DeleteReceived), ch)
  {
    RemoveAccounts(s.cases, s.phase.active, s.round, Find(s.cases, s.phase.ch), ch);
  }

  lemma LockKeeps(s: State, step: Step)
    requires Inv(s) && Enabled(s, step)
    ensures LockOk(Apply(s, step))
  {
    var t := Apply(s, step);
    forall id | Is(t, id, Holding)
      ensures t.lock == ByRemove(id)
    {
      assert step != TakeLock(id) ==> Is(s, id, Holding);
    }
  }

  /** Every step of every thread keeps the invariant, so no delete ever misses. */
  lemma StepKeeps(s: State, step: Step)
    requires Inv(s) && Enabled(s, step)
    ensures Inv(Apply(s, step))
  {
    var t := Apply(s, step);
    LockKeeps(s, step);
    match step {
      case DeleteHeld(id) =>
        HeldFound(s, id);
      case DeleteReceived =>
        ReceivedFound(s);
      case _ =>
    }
    forall ch
      ensures Balanced(t, ch) && RoundOk(t, ch)
    {
      assert Balanced(s, ch) && RoundOk(s, ch);
      match step {
        case Subscribe(c) => SubscribeKeeps(s, c, ch);
        case CancelInInbox(id) => CancelKeeps(s, id, ch);
        case AwaitRemoval(id) => AwaitKeeps(s, id, ch);
        case TakeLock(id) => TakeLockKeeps(s, id, ch);
        case DeleteHeld(id) => DeleteHeldKeeps(s, id, ch);
        case ReleaseHeld(id) =>
        case BeginSend =>
        case MergeInbox => MergeKeeps(s, ch);
        case Deliver(i) =>
          DeliverKeeps(s, i, ch);
          DeliverRound(s, i, ch);
        case ReceiveRemoval(id) => ReceiveKeeps(s, id, ch);
        case DeleteReceived =>
          DeleteReceivedKeeps(s, ch);
          DeleteReceivedRound(s, ch);
        case EndSend =>
      }
    }
  }

  predicate CanRun(s: State, steps: seq<Step>)
    decreases |steps|
  {
    steps == [] || (Enabled(s, steps[0]) && CanRun(Apply(s, steps[0]), steps[1..]))
  }

  function RunFrom(s: State, steps: seq<Step>): State
    requires CanRun(s, steps)
    decreases |steps|
  {
    if steps == [] then s else RunFrom(Apply(s, steps[0]), steps[1..])
  }

  lemma {:induction false} RunKeeps(s: State, steps: seq<Step>)
    requires Inv(s) && CanRun(s, steps)
    ensures Inv(RunFrom(s, steps))
    decreases |steps|
  {
    if steps != [] {
      StepKeeps(s, steps[0]);
      RunKeeps(Apply(s, steps[0]), steps[1..]);
    }
  }

  lemma InitInv()
    ensures Inv(INIT)
  {
    assert forall ch :: Balanced(INIT, ch) && RoundOk(INIT, ch);
  }

  /** Every interleaving of every number of subscribers, removals and sends, one channel subscribed any
      number of times: entries balance per channel, every pending removal has a case to delete, and
      delete is never called with index -1. */
  lemma EveryRunBalances(steps: seq<Step>, ch: Chan)
    requires CanRun(INIT, steps)
    ensures var s := RunFrom(INIT, steps);
            && !s.crashed
            && Count(s.inbox, ch) + Count(s.cases, ch) == Tally(s.subs, {Live}, ch) + Pending(s, ch)
            && Pending(s, ch) <= Count(s.cases, ch)
  {
    InitInv();
    RunKeeps(INIT, steps);
    assert Balanced(RunFrom(INIT, steps), ch);
  }

  /** When a Send is about to return, each channel got the value once for every case the Send started
      with, except those removed before delivery, and what is left in sendCases is the start minus
      all removals. */
  lemma EverySendDelivers(steps: seq<Step>, ch: Chan)
    requires CanRun(INIT, steps) && Enabled(RunFrom(INIT, steps), EndSend)
    ensures var s := RunFrom(INIT, steps);
            && s.round.sent[ch] + s.round.dropped[ch] == s.round.start[ch]
            && Count(s.cases, ch) + s.round.dropped[ch] + s.round.late[ch] == s.round.start[ch]
  {
    InitInv();
    RunKeeps(INIT, steps);
    var s := RunFrom(INIT, steps);
    assert RoundOk(s, ch);
    RoundEnds(s.cases, s.round, ch);
  }
}
