/** Account balances, their total, and the transfers of core/evm.go. */
module Balances {
  import opened Basics

  type Wallets = map<Address, nat>

  function Get(w: Wallets, a: Address): nat {
    if a in w then w[a] else 0
  }

  ghost function Total(w: Wallets): nat {
    if w == map[] then 0 else
      var a :| a in w;
      w[a] + Total(w - {a})
  }

  lemma {:induction false} TotalWithout(w: Wallets, a: Address)
    requires a in w
    ensures Total(w) == w[a] + Total(w - {a})
    decreases |w|
  {
    var b :| b in w && Total(w) == w[b] + Total(w - {b});
    if b != a {
      TotalWithout(w - {b}, a);
      TotalWithout(w - {a}, b);
      assert w - {b} - {a} == w - {a} - {b};
    }
  }

  /** Changing one balance changes the total by the difference. */
  lemma TotalSet(w: Wallets, a: Address, v: nat)
    ensures Total(w[a := v]) + Get(w, a) == Total(w) + v
  {
    TotalWithout(w[a := v], a);
    if a in w {
      TotalWithout(w, a);
      assert w[a := v] - {a} == w - {a};
    } else {
      assert w[a := v] - {a} == w;
    }
  }

  lemma GetWithinTotal(w: Wallets, a: Address)
    ensures Get(w, a) <= Total(w)
  {
    if a in w {
      TotalWithout(w, a);
    }
  }

  /** uint256 subtraction and addition, wrapping. */
  function Debit(w: Wallets, a: Address, amount: nat): Wallets {
    w[a := (Get(w, a) + TWO_256 - amount % TWO_256) % TWO_256]
  }

  function Credit(w: Wallets, a: Address, amount: nat): Wallets {
    w[a := (Get(w, a) + amount) % TWO_256]
  }

  lemma DebitExact(w: Wallets, a: Address, amount: nat)
    requires amount <= Get(w, a) < TWO_256
    ensures Get(Debit(w, a, amount), a) == Get(w, a) - amount
    ensures Total(Debit(w, a, amount)) + amount == Total(w)
  {
    TotalSet(w, a, Get(w, a) - amount);
  }

  lemma CreditExact(w: Wallets, a: Address, amount: nat)
    requires Total(w) + amount < TWO_256
    ensures Total(Credit(w, a, amount)) == Total(w) + amount
  {
    GetWithinTotal(w, a);
    TotalSet(w, a, Get(w, a) + amount);
  }

  predicate CanTransfer(w: Wallets, sender: Address, amount: nat) {
    Get(w, sender) >= amount
  }

  function Transfer(w: Wallets, sender: Address, recipient: Address, amount: nat): Wallets {
    Credit(Debit(w, sender, amount), recipient, amount)
  }

  /** A permitted transfer, also to oneself, moves value without creating or losing any. */
  lemma TransferConserves(w: Wallets, sender: Address, recipient: Address, amount: nat)
    requires CanTransfer(w, sender, amount) && Total(w) < TWO_256
    ensures Total(Transfer(w, sender, recipient, amount)) == Total(w)
  {
    GetWithinTotal(w, sender);
    DebitExact(w, sender, amount);
    CreditExact(Debit(w, sender, amount), recipient, amount);
  }

  datatype Move = Move(sender: Address, recipient: Address, amount: nat)

  /** Attempted transfers in order; one that is not permitted has no effect. */
  function Moved(w: Wallets, moves: seq<Move>): Wallets
    decreases |moves|, w
  {
    if moves == [] then w
    else
      var x := moves[0];
      Moved(if CanTransfer(w, x.sender, x.amount) then Transfer(w, x.sender, x.recipient, x.amount) else w, moves[1..])
  }

  lemma {:induction false} MovedConserves(w: Wallets, moves: seq<Move>)
    requires Total(w) < TWO_256
    ensures Total(Moved(w, moves)) == Total(w)
    decreases |moves|
  {
    if moves != [] {
      var x := moves[0];
      if CanTransfer(w, x.sender, x.amount) {
        TransferConserves(w, x.sender, x.recipient, x.amount);
        MovedConserves(Transfer(w, x.sender, x.recipient, x.amount), moves[1..]);
      } else {
        MovedConserves(w, moves[1..]);
      }
    }
  }
}
