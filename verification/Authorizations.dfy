/** Code delegations of EIP-7702 as applied by core/state_transition.go: a list of signed
    authorizations, each accepted only at the current nonce of its authority. */
module Authorizations {
  import opened Basics

  const NEW_ACCOUNT_GAS: nat := 25000
  const AUTH_TUPLE_GAS: nat := 12500

  /** Account code: none, a delegation, or any other code. */
  datatype Code = Empty | Delegation(target: Address) | Contract

  datatype Account = Account(nonce: nat, code: Code)

  type Accounts = map<Address, Account>

  /** The signer is absent when the signature is invalid; the zero target clears a delegation. */
  datatype Auth = Auth(chainId: nat, target: Address, nonce: nat, signer: Option<Address>)

  function AccountNonce(s: Accounts, a: Address): nat {
    if a in s then s[a].nonce else 0
  }

  function CodeOf(s: Accounts, a: Address): Code {
    if a in s then s[a].code else Empty
  }

  /** Whether an authorization is valid against the state. */
  predicate Accepts(s: Accounts, chainId: nat, auth: Auth) {
    && (auth.chainId == 0 || auth.chainId == chainId)
    && (auth.nonce + 1) % TWO_64 >= auth.nonce
    && auth.signer.Some?
    && !CodeOf(s, auth.signer.value).Contract?
    && AccountNonce(s, auth.signer.value) == auth.nonce
  }

  function NewCode(auth: Auth): Code {
    if auth.target == 0 then Empty else Delegation(auth.target)
  }

  function Step(s: Accounts, chainId: nat, auth: Auth): Accounts {
    if Accepts(s, chainId, auth) then s[auth.signer.value := Account(auth.nonce + 1, NewCode(auth))] else s
  }

  /** State after a list of authorizations; invalid ones are skipped. */
  function After(s: Accounts, chainId: nat, auths: seq<Auth>): Accounts {
    if auths == [] then s else Step(After(s, chainId, auths[..|auths| - 1]), chainId, auths[|auths| - 1])
  }

  /** The i-th authorization is accepted when its turn comes, for the given authority. */
  predicate AcceptedFor(s: Accounts, chainId: nat, auths: seq<Auth>, i: nat, a: Address)
    requires i < |auths|
  {
    Accepts(After(s, chainId, auths[..i]), chainId, auths[i]) && auths[i].signer == Some(a)
  }

  /** How many of the list are accepted for the authority. */
  ghost function AcceptedCount(s: Accounts, chainId: nat, auths: seq<Auth>, a: Address): nat {
    if auths == [] then 0
    else
      var n := |auths| - 1;
      AcceptedCount(s, chainId, auths[..n], a) + if AcceptedFor(s, chainId, auths, n, a) then 1 else 0
  }

  /** Refund of one accepted authorization whose account already existed. */
  function RefundOf(s: Accounts, chainId: nat, auth: Auth): nat {
    if Accepts(s, chainId, auth) && auth.signer.value in s then NEW_ACCOUNT_GAS - AUTH_TUPLE_GAS else 0
  }

  function Refunds(s: Accounts, chainId: nat, auths: seq<Auth>): nat {
    if auths == [] then 0
    else
      var front := auths[..|auths| - 1];
      Refunds(s, chainId, front) + RefundOf(After(s, chainId, front), chainId, auths[|auths| - 1])
  }

  /** An account with ordinary code keeps code and nonce through any list. */
  lemma {:induction false} ContractUntouched(s: Accounts, chainId: nat, auths: seq<Auth>, a: Address)
    requires CodeOf(s, a).Contract?
    ensures a in After(s, chainId, auths) && After(s, chainId, auths)[a] == s[a]
  {
    if auths != [] {
      ContractUntouched(s, chainId, auths[..|auths| - 1], a);
    }
  }

  /** The nonce of every account rises by exactly the number of authorizations accepted for it. */
  lemma {:induction false} NonceCounts(s: Accounts, chainId: nat, auths: seq<Auth>, a: Address)
    ensures AccountNonce(After(s, chainId, auths), a) == AccountNonce(s, a) + AcceptedCount(s, chainId, auths, a)
  {
    if auths != [] {
      NonceCounts(s, chainId, auths[..|auths| - 1], a);
    }
  }

  /** The k-th accepted authorization of an authority carries its starting nonce plus k. */
  lemma AcceptedConsecutive(s: Accounts, chainId: nat, auths: seq<Auth>, i: nat, a: Address)
    requires i < |auths| && AcceptedFor(s, chainId, auths, i, a)
    ensures auths[i].nonce == AccountNonce(s, a) + AcceptedCount(s, chainId, auths[..i], a)
  {
    NonceCounts(s, chainId, auths[..i], a);
  }

  lemma {:induction false} CountGrows(s: Accounts, chainId: nat, auths: seq<Auth>, i: nat, j: nat, a: Address)
    requires i < j <= |auths| && AcceptedFor(s, chainId, auths, i, a)
    ensures AcceptedCount(s, chainId, auths[..j], a) > AcceptedCount(s, chainId, auths[..i], a)
    decreases j
  {
    assert auths[..j][..j - 1] == auths[..j - 1];
    if i == j - 1 {
      assert auths[..j][..i] == auths[..i];
    } else {
      CountGrows(s, chainId, auths, i, j - 1, a);
    }
  }

  /** No authority has two authorizations with the same nonce accepted, in one list or another order. */
  lemma NeverTwice(s: Accounts, chainId: nat, auths: seq<Auth>, i: nat, j: nat, a: Address)
    requires i < j < |auths| && AcceptedFor(s, chainId, auths, i, a) && AcceptedFor(s, chainId, auths, j, a)
    ensures auths[i].nonce < auths[j].nonce
  {
    AcceptedConsecutive(s, chainId, auths, i, a);
    AcceptedConsecutive(s, chainId, auths, j, a);
    CountGrows(s, chainId, auths, i, j, a);
  }

  lemma AcceptedInFront(s: Accounts, chainId: nat, auths: seq<Auth>, n: nat, i: nat, a: Address)
    requires i < n <= |auths|
    ensures AcceptedFor(s, chainId, auths[..n], i, a) == AcceptedFor(s, chainId, auths, i, a)
  {
    assert auths[..n][..i] == auths[..i];
  }

  /** An account no authorization is accepted for keeps its code. */
  lemma {:induction false} CodeKept(s: Accounts, chainId: nat, auths: seq<Auth>, a: Address)
    requires forall j :: 0 <= j < |auths| ==> !AcceptedFor(s, chainId, auths, j, a)
    ensures CodeOf(After(s, chainId, auths), a) == CodeOf(s, a)
  {
    if auths != [] {
      var n := |auths| - 1;
      forall j | 0 <= j < n
        ensures !AcceptedFor(s, chainId, auths[..n], j, a)
      {
        AcceptedInFront(s, chainId, auths, n, j, a);
      }
      CodeKept(s, chainId, auths[..n], a);
      assert !AcceptedFor(s, chainId, auths, n, a);
    }
  }

  /** Otherwise its code is that of the last authorization accepted for it. */
  lemma {:induction false} CodeIsLast(s: Accounts, chainId: nat, auths: seq<Auth>, i: nat, a: Address)
    requires i < |auths| && AcceptedFor(s, chainId, auths, i, a)
    requires forall j :: i < j < |auths| ==> !AcceptedFor(s, chainId, auths, j, a)
    ensures CodeOf(After(s, chainId, auths), a) == NewCode(auths[i])
    decreases |auths|
  {
    var n := |auths| - 1;
    if i < n {
      AcceptedInFront(s, chainId, auths, n, i, a);
      forall j | i < j < n
        ensures !AcceptedFor(s, chainId, auths[..n], j, a)
      {
        AcceptedInFront(s, chainId, auths, n, j, a);
      }
      CodeIsLast(s, chainId, auths[..n], i, a);
      assert !AcceptedFor(s, chainId, auths, n, a);
    }
  }

  class Delegations {
    const chainId: nat
    var accounts: Accounts
    var refund: nat

    constructor (chainId: nat, accounts: Accounts)
      ensures this.chainId == chainId && this.accounts == accounts && refund == 0
    {
      this.chainId, this.accounts, refund := chainId, accounts, 0;
    }

    /** The authority of a valid authorization. */
    method Validate(auth: Auth) returns (authority: Option<Address>)
      ensures authority == if Accepts(accounts, chainId, auth) then auth.signer else None
    {
      if auth.chainId != 0 && auth.chainId != chainId {
        return None;
      }
      if (auth.nonce + 1) % TWO_64 < auth.nonce {
        return None;
      }
      if auth.signer.None? {
        return None;
      }
      var code := CodeOf(accounts, auth.signer.value);
      if code.Contract? {
        return None;
      }
      if AccountNonce(accounts, auth.signer.value) != auth.nonce {
        return None;
      }
      return auth.signer;
    }

    method ApplyAuthorization(auth: Auth)
      modifies this
      ensures accounts == Step(old(accounts), chainId, auth)
      ensures refund == old(refund) + RefundOf(old(accounts), chainId, auth)
    {
      var authority := Validate(auth);
      if authority.None? {
        return;
      }
      var a := authority.value;
      if a in accounts {
        refund := refund + (NEW_ACCOUNT_GAS - AUTH_TUPLE_GAS);
      }
      accounts := accounts[a := Account(auth.nonce + 1, CodeOf(accounts, a))];
      if auth.target == 0 {
        accounts := accounts[a := accounts[a].(code := Empty)];
        return;
      }
      accounts := accounts[a := accounts[a].(code := Delegation(auth.target))];
    }

    /** Applies the whole list; the message itself never fails because of it. */
    method ApplyAll(auths: seq<Auth>)
      modifies this
      ensures accounts == After(old(accounts), chainId, auths)
      ensures refund == old(refund) + Refunds(old(accounts), chainId, auths)
    {
      for i := 0 to |auths|
        invariant accounts == After(old(accounts), chainId, auths[..i])
        invariant refund == old(refund) + Refunds(old(accounts), chainId, auths[..i])
      {
        assert auths[..i + 1][..i] == auths[..i];
        ApplyAuthorization(auths[i]);
      }
      assert auths[..|auths|] == auths;
    }
  }
}
