/** The transaction loop of core/state_processor.go: one gas pool and one running gas counter
    across all transactions of a block. */
module StateProcessor {
  import opened Basics
  import opened Balances
  import opened StateTransitions

  datatype Tx = Tx(msg: Message, env: Env)

  datatype Receipt = Receipt(gasUsed: nat, cumulative: nat, byStartHook: bool)

  /** Gas of all receipts. */
  function GasSum(rs: seq<Receipt>): nat {
    if rs == [] then 0 else GasSum(rs[..|rs| - 1]) + rs[|rs| - 1].gasUsed
  }

  /** Gas of the receipts that went through the pool. */
  function PoolSum(rs: seq<Receipt>): nat {
    if rs == [] then 0
    else PoolSum(rs[..|rs| - 1]) + if rs[|rs| - 1].byStartHook then 0 else rs[|rs| - 1].gasUsed
  }

  /** Every cumulative figure is the prefix sum, as a uint64. */
  ghost predicate PrefixSums(rs: seq<Receipt>) {
    forall i :: 0 <= i < |rs| ==> rs[i].cumulative == GasSum(rs[..i + 1]) % TWO_64
  }

  lemma AppendPrefix(rs: seq<Receipt>, r: Receipt)
    requires PrefixSums(rs) && r.cumulative == (GasSum(rs) + r.gasUsed) % TWO_64
    ensures PrefixSums(rs + [r]) && GasSum(rs + [r]) == GasSum(rs) + r.gasUsed
    ensures PoolSum(rs + [r]) == PoolSum(rs) + if r.byStartHook then 0 else r.gasUsed
  {
    var next := rs + [r];
    assert next[..|rs|] == rs;
    forall i | 0 <= i < |next|
      ensures next[i].cumulative == GasSum(next[..i + 1]) % TWO_64
    {
      if i < |rs| {
        assert next[..i + 1] == rs[..i + 1];
      } else {
        assert next[..i + 1] == next;
      }
    }
  }

  /** When no transaction was ended by the start hook, all gas went through the pool. */
  lemma {:induction false} AllThroughPool(rs: seq<Receipt>)
    requires forall i :: 0 <= i < |rs| ==> !rs[i].byStartHook
    ensures PoolSum(rs) == GasSum(rs)
  {
    if rs != [] {
      AllThroughPool(rs[..|rs| - 1]);
    }
  }

  /** Then the running counter cannot wrap and is exactly what the pool lost. */
  lemma CounterExact(rs: seq<Receipt>, limit: nat, left: nat)
    requires limit <= MAX_U64 && left + PoolSum(rs) == limit
    requires forall i :: 0 <= i < |rs| ==> !rs[i].byStartHook
    ensures GasSum(rs) % TWO_64 == GasSum(rs) == limit - left
  {
    AllThroughPool(rs);
  }

  lemma WrapAdd(a: nat, b: nat)
    ensures (a % TWO_64 + b) % TWO_64 == (a + b) % TWO_64
  {
  }

  /** Accounts, and gas left in the block, as the block's transactions leave them. */
  datatype World = World(wallets: Wallets, nonces: Nonces, gas: nat)

  /** Wei the transactions take out of the supply; those ended by the start hook take none. */
  ghost function BurnSum(txs: seq<Tx>, rules: Rules): int {
    if txs == [] then 0
    else
      var tx := txs[|txs| - 1];
      BurnSum(txs[..|txs| - 1], rules)
      + if tx.env.startHook.Some? || Intrinsic(tx.env) > tx.msg.gasLimit then 0 else Burned(tx.msg, rules, tx.env)
  }

  /** London rules with enforced base fees, and a message made from a transaction. */
  ghost predicate Priced(tx: Tx, rules: Rules) {
    rules.london && !rules.noBaseFee && FromTransaction(tx.msg, rules)
  }

  /** The start hook ends the transaction, or it can be executed. */
  ghost predicate Runs(tx: Tx, rules: Rules, w: World) {
    tx.env.startHook.Some? || Executes(tx.msg, rules, tx.env, w.wallets, w.nonces, w.gas)
  }

  /** Accounts after the start hook. */
  function Started(w: World, tx: Tx): World {
    w.(wallets := Moved(w.wallets, tx.env.startMoves), nonces := Bumped(w.nonces, tx.env.startBumps))
  }

  /** What an applied transaction does to accounts and pool: its nonce is spent, the supply loses its fees
      and the pool its gas, unless the start hook ended it. */
  ghost predicate Applied(w: World, tx: Tx, rules: Rules, w': World) {
    if tx.env.startHook.Some? then w' == Started(w, tx)
    else
      && w'.nonces == Advanced(Started(w, tx).nonces, tx.msg.from, tx.msg.creates, tx.env.bumps)
      && (!tx.msg.skipNonce ==> NonceOf(Started(w, tx).nonces, tx.msg.from) == tx.msg.nonce < MAX_U64)
      && Intrinsic(tx.env) <= tx.msg.gasLimit && w'.gas + UsedGas(tx.msg, rules, tx.env) == w.gas
      && (Priced(tx, rules) && Total(w.wallets) < TWO_256 ==>
            && Total(w'.wallets) + Burned(tx.msg, rules, tx.env) == Total(w.wallets)
            && Total(w'.wallets) <= Total(w.wallets))
  }

  /** Each transaction leads from one state of the accounts to the next. */
  ghost predicate Steps(ws: seq<World>, txs: seq<Tx>, rules: Rules) {
    |ws| == |txs| + 1 && forall i :: 0 <= i < |txs| ==> Applied(ws[i], txs[i], rules, ws[i + 1])
  }

  /** The receipt of a transaction: what the start hook charged if it ended the transaction, else what the
      execution used. */
  ghost predicate ReceiptOf(r: Receipt, tx: Tx, rules: Rules) {
    && r.byStartHook == tx.env.startHook.Some?
    && if r.byStartHook then r.gasUsed == tx.env.startHook.value
       else Intrinsic(tx.env) <= tx.msg.gasLimit && r.gasUsed == UsedGas(tx.msg, rules, tx.env)
  }

  ghost predicate Marked(rs: seq<Receipt>, txs: seq<Tx>, rules: Rules) {
    |rs| == |txs| && forall i :: 0 <= i < |txs| ==> ReceiptOf(rs[i], txs[i], rules)
  }

  lemma StepsNext(ws: seq<World>, txs: seq<Tx>, rules: Rules, n: nat, w: World)
    requires n < |txs| && Steps(ws, txs[..n], rules) && Applied(ws[n], txs[n], rules, w)
    ensures Steps(ws + [w], txs[..n + 1], rules)
  {
    assert txs[..n + 1] == txs[..n] + [txs[n]];
  }

  lemma MarkedNext(rs: seq<Receipt>, txs: seq<Tx>, rules: Rules, n: nat, r: Receipt)
    requires n < |txs| && Marked(rs, txs[..n], rules) && ReceiptOf(r, txs[n], rules)
    ensures Marked(rs + [r], txs[..n + 1], rules)
  {
    assert txs[..n + 1] == txs[..n] + [txs[n]];
  }

  lemma StepsFront(ws: seq<World>, txs: seq<Tx>, rules: Rules)
    requires Steps(ws, txs, rules) && txs != []
    ensures var n := |txs| - 1; Steps(ws[..n + 1], txs[..n], rules) && Applied(ws[n], txs[n], rules, ws[n + 1])
  {
  }

  // Nonces over a block.

  /** How an executed message moves the nonce of an account. */
  lemma AdvancedMoves(nonces: Nonces, from: Address, creates: bool, bumps: seq<Address>, a: Address)
    ensures var m, n := NonceOf(nonces, a), NonceOf(Advanced(nonces, from, creates, bumps), a);
            var own := if from == a then 1 else 0;
            && n <= m + own + Times(bumps, a)
            && if from == a && !creates && m >= MAX_U64 then n + TWO_64 <= m + own + Times(bumps, a)
               else n >= m + if from == a && m < MAX_U64 then 1 else 0
  {
    if creates {
      assert ([from] + bumps)[1..] == bumps;
      var n := NonceOf(nonces, from);
      var bumped := if n < MAX_U64 then nonces[from := n + 1] else nonces;
      BumpsGrow(bumped, bumps, a);
      BumpsBound(bumped, bumps, a);
    } else {
      var bumped := nonces[from := (NonceOf(nonces, from) + 1) % TWO_64];
      BumpsGrow(bumped, bumps, a);
      BumpsBound(bumped, bumps, a);
    }
  }

  predicate SentBy(tx: Tx, a: Address) {
    tx.env.startHook.None? && tx.msg.from == a
  }

  /** The transaction is an executed call although its sender's nonce is the largest, which only an
      unchecked one can be. */
  ghost predicate Wraps(w: World, tx: Tx, a: Address) {
    SentBy(tx, a) && !tx.msg.creates && NonceOf(Started(w, tx).nonces, a) >= MAX_U64
  }

  /** Nonce increments of the account by one transaction. */
  function Raises(tx: Tx, a: Address): nat {
    Times(tx.env.startBumps, a)
    + if tx.env.startHook.Some? then 0 else (if tx.msg.from == a then 1 else 0) + Times(tx.env.bumps, a)
  }

  /** Nonce increments by the transactions from i up to but not including j. */
  function Raised(txs: seq<Tx>, i: nat, j: nat, a: Address): nat
    requires j <= |txs|
    decreases j, i, txs, a
  {
    if j <= i then 0 else Raised(txs, i, j - 1, a) + Raises(txs[j - 1], a)
  }

  /** How one transaction moves the nonce of an account: n before, m after the start hook, n' in the end. */
  ghost predicate NonceMoves(w: World, tx: Tx, w': World, a: Address) {
    var n, m, n' := NonceOf(w.nonces, a), NonceOf(Started(w, tx).nonces, a), NonceOf(w'.nonces, a);
    && n <= m <= n + Times(tx.env.startBumps, a) && n' <= n + Raises(tx, a)
    && if Wraps(w, tx, a) then n' + TWO_64 <= n + Raises(tx, a)
       else n' >= m + if SentBy(tx, a) && m < MAX_U64 then 1 else 0
  }

  lemma NonceStep(w: World, tx: Tx, rules: Rules, w': World, a: Address)
    requires Applied(w, tx, rules, w')
    ensures NonceMoves(w, tx, w', a)
  {
    BumpsGrow(w.nonces, tx.env.startBumps, a);
    BumpsBound(w.nonces, tx.env.startBumps, a);
    if tx.env.startHook.None? {
      AdvancedMoves(Started(w, tx).nonces, tx.msg.from, tx.msg.creates, tx.env.bumps, a);
    }
  }

  /** No transaction from i up to but not including j wraps the account's nonce. */
  ghost predicate NoWrap(ws: seq<World>, txs: seq<Tx>, i: nat, j: nat, a: Address)
    requires j <= |txs| <= |ws|
  {
    forall k :: i <= k < j ==> !Wraps(ws[k], txs[k], a)
  }

  lemma {:induction false} NonceRun(ws: seq<World>, txs: seq<Tx>, i: nat, j: nat, a: Address)
    requires |ws| == |txs| + 1 && i <= j <= |txs|
    requires forall k :: 0 <= k < |txs| ==> NonceMoves(ws[k], txs[k], ws[k + 1], a)
    ensures NonceOf(ws[j].nonces, a) <= NonceOf(ws[i].nonces, a) + Raised(txs, i, j, a)
    ensures if NoWrap(ws, txs, i, j, a) then NonceOf(ws[j].nonces, a) >= NonceOf(ws[i].nonces, a)
            else NonceOf(ws[j].nonces, a) + TWO_64 <= NonceOf(ws[i].nonces, a) + Raised(txs, i, j, a)
    decreases j
  {
    if i < j {
      NonceRun(ws, txs, i, j - 1, a);
      assert NonceMoves(ws[j - 1], txs[j - 1], ws[j], a);
      assert NoWrap(ws, txs, i, j, a) <==> NoWrap(ws, txs, i, j - 1, a) && !Wraps(ws[j - 1], txs[j - 1], a);
    }
  }

  lemma NoncesMove(ws: seq<World>, txs: seq<Tx>, rules: Rules, a: Address)
    requires Steps(ws, txs, rules)
    ensures forall k :: 0 <= k < |txs| ==> NonceMoves(ws[k], txs[k], ws[k + 1], a)
  {
    forall k | 0 <= k < |txs|
      ensures NonceMoves(ws[k], txs[k], ws[k + 1], a)
    {
      NonceStep(ws[k], txs[k], rules, ws[k + 1], a);
    }
  }

  /** Two nonce-checked transactions of one sender, with any others between them, carry rising nonces
      unless an unchecked one wrapped the sender's nonce between them; and exactly then as long as fewer
      than 2^64 increments happen between them. */
  lemma NoncesInOrder(ws: seq<World>, txs: seq<Tx>, rules: Rules, i: nat, j: nat)
    requires Steps(ws, txs, rules) && i < j < |txs|
    requires SentBy(txs[i], txs[i].msg.from) && SentBy(txs[j], txs[i].msg.from)
    requires !txs[i].msg.skipNonce && !txs[j].msg.skipNonce
    ensures NoWrap(ws, txs, i + 1, j, txs[i].msg.from) ==> txs[i].msg.nonce < txs[j].msg.nonce
    ensures Raised(txs, i, j + 1, txs[i].msg.from) <= TWO_64 ==>
              (txs[i].msg.nonce < txs[j].msg.nonce <==> NoWrap(ws, txs, i + 1, j, txs[i].msg.from))
  {
    var a := txs[i].msg.from;
    assert Applied(ws[i], txs[i], rules, ws[i + 1]) && Applied(ws[j], txs[j], rules, ws[j + 1]);
    NoncesMove(ws, txs, rules, a);
    assert NonceMoves(ws[i], txs[i], ws[i + 1], a) && NonceMoves(ws[j], txs[j], ws[j + 1], a);
    NonceRun(ws, txs, i, j, a);
    NonceRun(ws, txs, i + 1, j, a);
    assert NoWrap(ws, txs, i, j, a) <==> NoWrap(ws, txs, i + 1, j, a) by {
      assert !Wraps(ws[i], txs[i], a);
    }
  }

  /** A call of account 7 that pays no fee and spends its intrinsic gas only. */
  function PlainTx(nonce: nat, skipNonce: bool): Tx {
    Tx(Message(7, nonce, skipNonce, false, false, 0, TX_GAS, 0, 0, 0, 0, None, None, 0, 0),
       Env(None, [], [], true, false, Some(TX_GAS), true, 0, 0, [], true, 0, [], [], 0, 0, 0, 7))
  }

  /** London rules on an Arbitrum chain with base fee 0. */
  const FREE := Rules(true, false, false, false, true, false, 0, 0)

  /** A call with no other effect than to spend its nonce and gas. */
  ghost predicate Effectless(tx: Tx) {
    && tx.env.startHook.None? && tx.env.startMoves == [] && tx.env.startBumps == [] && tx.env.bumps == []
    && tx.env.hookMoves == [] && !tx.msg.creates && tx.msg.value == 0
  }

  /** It passes all rules and owes nothing. */
  ghost predicate Costless(tx: Tx) {
    && DropTip(tx.msg, FREE, tx.env.collectTips) == tx.msg && Admissible(tx.msg, FREE, tx.env.senderHasCode)
    && Required(tx.msg, FREE) == Price(tx.msg, FREE) == 0
    && tx.env.intrinsic.Some? && tx.env.hookOk && tx.env.initCodeOk
  }

  /** It uses exactly its intrinsic gas. */
  ghost predicate UsesIntrinsic(tx: Tx, gas: nat) {
    && tx.msg.gasLimit == gas && Intrinsic(tx.env) == gas && UsedGas(tx.msg, FREE, tx.env) == gas
    && Burned(tx.msg, FREE, tx.env) == 0
  }

  ghost predicate IsQuiet(tx: Tx, gas: nat) {
    Effectless(tx) && Costless(tx) && UsesIntrinsic(tx, gas)
  }

  lemma PlainCostless(nonce: nat, skipNonce: bool)
    ensures Costless(PlainTx(nonce, skipNonce))
  {
    assert BlobGas(PlainTx(nonce, skipNonce).msg) == 0;
  }

  /** With its whole limit intrinsic and no refund, a message uses its limit. */
  lemma AllIntrinsic(m: Message, rules: Rules, env: Env)
    requires Intrinsic(env) == m.gasLimit && env.counter == 0 && !rules.prague
    ensures UsedGas(m, rules, env) == m.gasLimit
  {
    assert Peak(m, env) == m.gasLimit && Refund(m, rules, env) == 0;
  }

  /** At price and base fee 0 it burns nothing. */
  lemma FreeBurnsNothing(m: Message, rules: Rules, env: Env)
    requires Intrinsic(env) <= m.gasLimit && m.gasPrice == rules.baseFee == 0 && !rules.cancun
    ensures Burned(m, rules, env) == 0
  {
    var used := UsedGas(m, rules, env);
    assert used * 0 == 0 && ComputeGas(used, env.poster) * 0 == 0;
  }

  /** The state such a call leaves. */
  function Quiet(w: World, from: Address, gas: nat): World
    requires gas <= w.gas
  {
    w.(nonces := w.nonces[from := (NonceOf(w.nonces, from) + 1) % TWO_64], gas := w.gas - gas)
  }

  lemma QuietNonce(w: World, from: Address, gas: nat)
    requires gas <= w.gas && NonceOf(w.nonces, from) <= MAX_U64
    ensures NonceOf(Quiet(w, from, gas).nonces, from) ==
            if NonceOf(w.nonces, from) == MAX_U64 then 0 else NonceOf(w.nonces, from) + 1
  {
  }

  /** It runs, and leaves that state, if it is unchecked or carries its sender's nonce. */
  lemma QuietRuns(w: World, tx: Tx, gas: nat)
    requires IsQuiet(tx, gas) && gas <= w.gas
    requires tx.msg.skipNonce || NonceOf(w.nonces, tx.msg.from) == tx.msg.nonce < MAX_U64
    ensures Runs(tx, FREE, w)
  {
    assert Moved(w.wallets, []) == w.wallets && Bumped(w.nonces, []) == w.nonces;
  }

  lemma QuietApplies(w: World, tx: Tx, gas: nat)
    requires IsQuiet(tx, gas) && gas <= w.gas
    requires tx.msg.skipNonce || NonceOf(w.nonces, tx.msg.from) == tx.msg.nonce < MAX_U64
    ensures Applied(w, tx, FREE, Quiet(w, tx.msg.from, gas))
  {
  }

  lemma StepsOfThree(w0: World, w1: World, w2: World, w3: World, x: Tx, y: Tx, z: Tx, rules: Rules)
    requires Applied(w0, x, rules, w1) && Applied(w1, y, rules, w2) && Applied(w2, z, rules, w3)
    ensures Steps([w0, w1, w2, w3], [x, y, z], rules)
  {
  }

  lemma ChoosePlain(nonce: nat, skipNonce: bool) returns (tx: Tx)
    ensures IsQuiet(tx, TX_GAS) && SentBy(tx, 7) && tx.msg.nonce == nonce && tx.msg.skipNonce == skipNonce
  {
    PlainCostless(nonce, skipNonce);
    tx := PlainTx(nonce, skipNonce);
    AllIntrinsic(tx.msg, FREE, tx.env);
    FreeBurnsNothing(tx.msg, FREE, tx.env);
  }

  lemma QuietStep(w: World, tx: Tx, gas: nat) returns (after: World)
    requires IsQuiet(tx, gas) && gas <= w.gas && NonceOf(w.nonces, tx.msg.from) <= MAX_U64
    requires tx.msg.skipNonce || NonceOf(w.nonces, tx.msg.from) == tx.msg.nonce < MAX_U64
    ensures Runs(tx, FREE, w) && Applied(w, tx, FREE, after) && after.gas == w.gas - gas
    ensures NonceOf(after.nonces, tx.msg.from) ==
            if NonceOf(w.nonces, tx.msg.from) == MAX_U64 then 0 else NonceOf(w.nonces, tx.msg.from) + 1
  {
    QuietRuns(w, tx, gas);
    QuietApplies(w, tx, gas);
    QuietNonce(w, tx.msg.from, gas);
    after := Quiet(w, tx.msg.from, gas);
  }

  /** Three transactions of a block, a checked one at nonce 2^64 - 2, an unchecked one and a checked one at
      nonce 0: all three run, and the nonces of the checked ones fall, because the one between wraps. */
  lemma WrapExample(w: World) returns (x: Tx, y: Tx, z: Tx, ws: seq<World>)
    requires NonceOf(w.nonces, 7) == MAX_U64 - 1 && w.gas >= 3 * TX_GAS
    ensures Steps(ws, [x, y, z], FREE) && ws[0] == w
    ensures Runs(x, FREE, ws[0]) && Runs(y, FREE, ws[1]) && Runs(z, FREE, ws[2])
    ensures SentBy(x, 7) && SentBy(y, 7) && SentBy(z, 7) && !x.msg.skipNonce && !z.msg.skipNonce
    ensures x.msg.nonce == MAX_U64 - 1 && z.msg.nonce == 0 && Wraps(ws[1], y, 7)
    ensures Intrinsic(x.env) == Intrinsic(y.env) == Intrinsic(z.env) == TX_GAS
  {
    x := ChoosePlain(MAX_U64 - 1, false);
    y := ChoosePlain(0, true);
    z := ChoosePlain(0, false);
    var w1 := QuietStep(w, x, TX_GAS);
    var w2 := QuietStep(w1, y, TX_GAS);
    var w3 := QuietStep(w2, z, TX_GAS);
    ws := [w, w1, w2, w3];
    StepsOfThree(w, w1, w2, w3, x, y, z, FREE);
  }

  /** As long as fees are enforced, the supply loses exactly the fees of the whole block. */
  lemma {:induction false} SupplyLosesFees(ws: seq<World>, txs: seq<Tx>, rules: Rules)
    requires Steps(ws, txs, rules) && Total(ws[0].wallets) < TWO_256
    requires forall i :: 0 <= i < |txs| ==> Priced(txs[i], rules)
    ensures Total(ws[|txs|].wallets) + BurnSum(txs, rules) == Total(ws[0].wallets)
    ensures Total(ws[|txs|].wallets) <= Total(ws[0].wallets)
    decreases |txs|
  {
    if txs != [] {
      var n := |txs| - 1;
      StepsFront(ws, txs, rules);
      SupplyLosesFees(ws[..n + 1], txs[..n], rules);
      MovedConserves(ws[n].wallets, txs[n].env.startMoves);
      assert Priced(txs[n], rules);
    }
  }

  /** Applies a transaction exactly when it runs: what it uses leaves the pool, unless the start hook ended it. */
  method ApplyTransaction(gp: GasPool, w0: World, tx: Tx, rules: Rules, usedGas0: nat)
    returns (ok: bool, receipt: Receipt, usedGas: nat, w: World)
    requires gp.Valid() && tx.msg.gasLimit <= MAX_U64 && w0.gas == gp.gas
    modifies gp
    ensures gp.Valid() && w.gas == gp.gas
    ensures ok <==> Runs(tx, rules, w0)
    ensures ok ==>
              && ReceiptOf(receipt, tx, rules)
              && usedGas == receipt.cumulative == (usedGas0 + receipt.gasUsed) % TWO_64
              && gp.gas + (if receipt.byStartHook then 0 else receipt.gasUsed) == old(gp.gas)
              && Applied(w0, tx, rules, w)
    ensures !ok ==> usedGas == usedGas0
  {
    var st := new Transition(gp, w0.wallets, w0.nonces);
    var r := st.Execute(tx.msg, rules, tx.env);
    w := World(st.wallets, st.nonces, gp.gas);
    if r.Failed? {
      return false, Receipt(0, 0, false), usedGas0, w;
    }
    if r.Executed? && Priced(tx, rules) && Total(w0.wallets) < TWO_256 {
      SettledBurns(tx.msg, rules, tx.env, Total(w0.wallets), Total(w.wallets));
    }
    usedGas := (usedGas0 + r.usedGas) % TWO_64;
    return true, Receipt(r.usedGas, usedGas, r.EndedByHook?), usedGas, w;
  }

  /** Receipts and running counter after one more transaction. */
  method Record(receipts0: seq<Receipt>, receipt: Receipt, ghost usedGas0: nat, usedGas: nat)
    returns (receipts: seq<Receipt>)
    requires PrefixSums(receipts0) && usedGas0 == GasSum(receipts0) % TWO_64
    requires usedGas == receipt.cumulative == (usedGas0 + receipt.gasUsed) % TWO_64
    ensures receipts == receipts0 + [receipt] && PrefixSums(receipts) && usedGas == GasSum(receipts) % TWO_64
    ensures PoolSum(receipts) == PoolSum(receipts0) + if receipt.byStartHook then 0 else receipt.gasUsed
  {
    WrapAdd(GasSum(receipts0), receipt.gasUsed);
    AppendPrefix(receipts0, receipt);
    receipts := receipts0 + [receipt];
  }

  /** One round of the loop. */
  method Advance(gp: GasPool, tx: Tx, rules: Rules, receipts0: seq<Receipt>, usedGas0: nat, w0: World, ghost limit: nat)
    returns (ok: bool, receipt: Receipt, receipts: seq<Receipt>, usedGas: nat, w: World)
    requires gp.Valid() && tx.msg.gasLimit <= MAX_U64 && gp.gas + PoolSum(receipts0) == limit && w0.gas == gp.gas
    requires PrefixSums(receipts0) && usedGas0 == GasSum(receipts0) % TWO_64
    modifies gp
    ensures gp.Valid() && w.gas == gp.gas && PrefixSums(receipts) && usedGas == GasSum(receipts) % TWO_64
    ensures ok <==> Runs(tx, rules, w0)
    ensures !ok ==> receipts == receipts0
    ensures ok ==>
              && receipts == receipts0 + [receipt] && ReceiptOf(receipt, tx, rules)
              && gp.gas + PoolSum(receipts) == limit && Applied(w0, tx, rules, w)
  {
    ok, receipt, usedGas, w := ApplyTransaction(gp, w0, tx, rules, usedGas0);
    if !ok {
      return false, receipt, receipts0, usedGas, w;
    }
    receipts := Record(receipts0, receipt, usedGas0, usedGas);
  }

  /** The state of a block of which the transactions with receipts were applied: pool and receipts balance
      to the block gas limit, every transaction ran at its turn, and accounts and pool went through ws. */
  ghost predicate Processed(limit: nat, txs: seq<Tx>, rules: Rules, rs: seq<Receipt>, ws: seq<World>) {
    && |rs| <= |txs| && Marked(rs, txs[..|rs|], rules) && Steps(ws, txs[..|rs|], rules)
    && ws[|rs|].gas + PoolSum(rs) == limit
    && forall i :: 0 <= i < |rs| ==> Runs(txs[i], rules, ws[i])
  }

  lemma ProcessedNext(limit: nat, txs: seq<Tx>, rules: Rules, rs: seq<Receipt>, ws: seq<World>, w: World, r: Receipt)
    requires Processed(limit, txs, rules, rs, ws) && |rs| < |txs|
    requires Runs(txs[|rs|], rules, ws[|rs|]) && Applied(ws[|rs|], txs[|rs|], rules, w)
    requires ReceiptOf(r, txs[|rs|], rules)
    requires w.gas + PoolSum(rs + [r]) == limit
    ensures Processed(limit, txs, rules, rs + [r], ws + [w])
  {
    StepsNext(ws, txs, rules, |rs|, w);
    MarkedNext(rs, txs, rules, |rs|, r);
    assert forall i :: 0 <= i < |rs| ==> (ws + [w])[i] == ws[i];
  }

  /** Processes a block, up to the first transaction that does not run, so that gas can be returned without
      ever pushing the pool above a uint64. */
  method Process(limit: nat, txs: seq<Tx>, rules: Rules, wallets: Wallets, nonces: Nonces)
    returns (ok: bool, receipts: seq<Receipt>, usedGas: nat, w: World, ghost ws: seq<World>)
    requires limit <= MAX_U64 && forall i :: 0 <= i < |txs| ==> txs[i].msg.gasLimit <= MAX_U64
    ensures Processed(limit, txs, rules, receipts, ws) && ws[0] == World(wallets, nonces, limit)
    ensures if ok then |receipts| == |txs| && ws[|txs|] == w
            else |receipts| < |txs| && !Runs(txs[|receipts|], rules, ws[|receipts|])
    ensures PrefixSums(receipts) && usedGas == GasSum(receipts) % TWO_64
  {
    var gp := new GasPool(limit);
    receipts, usedGas, w := [], 0, World(wallets, nonces, limit);
    ws := [w];
    for n := 0 to |txs|
      invariant gp.Valid() && fresh(gp) && w.gas == gp.gas && |receipts| == n
      invariant Processed(limit, txs, rules, receipts, ws) && ws[0] == World(wallets, nonces, limit) && ws[n] == w
      invariant PrefixSums(receipts) && usedGas == GasSum(receipts) % TWO_64
    {
      ghost var rs := receipts;
      var receipt;
      ok, receipt, receipts, usedGas, w := Advance(gp, txs[n], rules, receipts, usedGas, w, limit);
      if !ok {
        return false, receipts, usedGas, w, ws;
      }
      ProcessedNext(limit, txs, rules, rs, ws, w, receipt);
      ws := ws + [w];
    }
    ok := true;
  }
}
