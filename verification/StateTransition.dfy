/** Gas and wei accounting of core/state_transition.go for one message: buying gas, settling
    refunds, held gas and the calldata floor, returning gas and paying the tip. */
module StateTransitions {
  import opened Basics
  import opened Balances

  const TX_GAS: nat := 21000
  const TOKENS_PER_NONZERO_BYTE: nat := 4
  const FLOOR_PER_TOKEN: nat := 10
  const REFUND_QUOTIENT: nat := 2
  const REFUND_QUOTIENT_EIP3529: nat := 5
  const BLOB_GAS_PER_BLOB: nat := 131072
  const MAX_TX_GAS: nat := 16777216
  const MAX_BLOBS: nat := 6

  /** blobHashes tells for each blob hash whether its version is valid, auths the length of the list of
      authorizations, each absent where the source has nil. creates marks a message without recipient. */
  datatype Message = Message(from: Address, nonce: nat, skipNonce: bool, skipChecks: bool, creates: bool,
                             value: nat, gasLimit: nat, gasPrice: nat, feeCap: nat, tipCap: nat, blobFeeCap: nat,
                             blobHashes: Option<seq<bool>>, auths: Option<nat>, zeros: nat, nonZeros: nat)

  /** Block context and fork rules in force. prague is only set when the calldata pricing increase is
      enabled too. */
  datatype Rules = Rules(london: bool, cancun: bool, prague: bool, osaka: bool, arbitrum: bool,
                         noBaseFee: bool, baseFee: nat, blobBaseFee: nat)

  datatype Status =
    | Ok | NonceTooHigh | NonceTooLow | NonceMax | GasLimitTooHigh | SenderNoEOA | BlobTxCreate | MissingBlobHashes
    | TooManyBlobs | BadBlobHash | SetCodeTxCreate | EmptyAuthList | FeeCapVeryHigh | TipVeryHigh | TipAboveFeeCap
    | FeeCapTooLow | BlobFeeCapTooLow | InsufficientFunds | GasLimitReached | GasUintOverflow | IntrinsicGas | FloorData
    | HookError | InsufficientFundsForTransfer | InitCodeSize

  /** Effective gas price of a transaction (EIP-1559). */
  function EffectivePrice(tipCap: nat, feeCap: nat, baseFee: nat): nat {
    if tipCap + baseFee > feeCap then feeCap else tipCap + baseFee
  }

  /** A message made from a transaction against the block's base fee. */
  predicate FromTransaction(m: Message, rules: Rules) {
    m.gasPrice == EffectivePrice(m.tipCap, m.feeCap, rules.baseFee)
  }

  /** Without tip collection the price falls back to the base fee. */
  function DropTip(m: Message, rules: Rules, collectTips: bool): Message {
    if !collectTips && m.gasPrice > rules.baseFee then m.(gasPrice := rules.baseFee, tipCap := 0) else m
  }

  function BlobGas(m: Message): nat {
    (if m.blobHashes.Some? then |m.blobHashes.value| else 0) * BLOB_GAS_PER_BLOB % TWO_64
  }

  /** The gas cap of EIP-7825, and senders must not have code other than a delegation (EIP-3607). */
  function SenderCheck(m: Message, rules: Rules, senderHasCode: bool): Status {
    if m.skipChecks then Ok
    else if !rules.arbitrum && rules.osaka && m.gasLimit > MAX_TX_GAS then GasLimitTooHigh
    else if senderHasCode then SenderNoEOA
    else Ok
  }

  /** The fee rules of EIP-1559. */
  function FeeCheck(m: Message, rules: Rules): Status {
    if !rules.london || (rules.noBaseFee && m.feeCap == 0 && m.tipCap == 0) then Ok
    else if m.feeCap >= TWO_256 then FeeCapVeryHigh
    else if m.tipCap >= TWO_256 then TipVeryHigh
    else if m.feeCap < m.tipCap then TipAboveFeeCap
    else if m.feeCap < rules.baseFee then FeeCapTooLow
    else Ok
  }

  /** The blob rules of EIP-4844. */
  function BlobCheck(m: Message, rules: Rules): Status {
    if m.blobHashes.Some? && m.creates then BlobTxCreate
    else if m.blobHashes == Some([]) then MissingBlobHashes
    else if m.blobHashes.Some? && rules.osaka && |m.blobHashes.value| > MAX_BLOBS then TooManyBlobs
    else if m.blobHashes.Some? && false in m.blobHashes.value then BadBlobHash
    else Ok
  }

  function BlobFeeCheck(m: Message, rules: Rules): Status {
    if rules.cancun && BlobGas(m) > 0 && !(rules.noBaseFee && m.blobFeeCap == 0) && m.blobFeeCap < rules.blobBaseFee
    then BlobFeeCapTooLow
    else Ok
  }

  /** The form rules of EIP-7702. */
  function AuthCheck(m: Message): Status {
    if m.auths.Some? && m.creates then SetCodeTxCreate
    else if m.auths == Some(0) then EmptyAuthList
    else Ok
  }

  /** Every rule between the nonce and the purchase holds. */
  predicate Admissible(m: Message, rules: Rules, senderHasCode: bool) {
    && SenderCheck(m, rules, senderHasCode) == Ok && FeeCheck(m, rules) == Ok && BlobCheck(m, rules) == Ok
    && BlobFeeCheck(m, rules) == Ok && AuthCheck(m) == Ok
  }

  /** Minimum gas for the data of a transaction (EIP-7623), none on overflow. */
  function FloorDataGas(zeros: nat, nonZeros: nat): (r: Option<nat>)
    ensures r.Some? ==> TX_GAS <= r.value <= MAX_U64
  {
    var tokens := (nonZeros * TOKENS_PER_NONZERO_BYTE + zeros) % TWO_64;
    if (MAX_U64 - TX_GAS) / FLOOR_PER_TOKEN < tokens then None else Some(TX_GAS + tokens * FLOOR_PER_TOKEN)
  }

  function BlobFee(m: Message, rules: Rules): nat {
    if rules.cancun then BlobGas(m) * rules.blobBaseFee else 0
  }

  /** What buying gas takes from the sender. */
  function Price(m: Message, rules: Rules): nat {
    m.gasLimit * m.gasPrice + BlobFee(m, rules)
  }

  /** What the sender must own before. */
  function Required(m: Message, rules: Rules): nat {
    m.gasLimit * m.feeCap + m.value + if rules.cancun then BlobGas(m) * m.blobFeeCap else 0
  }

  lemma MulMono(k: nat, x: nat, y: nat)
    requires x <= y
    ensures k * x <= k * y
  {
  }

  /** London rules with base fee enforcement, a message from a transaction that passed the fee checks. */
  ghost predicate Enforced(m: Message, rules: Rules) {
    && rules.london && !rules.noBaseFee && FeeCheck(m, rules) == Ok && BlobFeeCheck(m, rules) == Ok
    && rules.baseFee <= m.gasPrice <= m.feeCap
  }

  lemma PriceInRange(m: Message, rules: Rules, collectTips: bool)
    requires rules.london && !rules.noBaseFee && FromTransaction(m, rules)
    requires var m' := DropTip(m, rules, collectTips); FeeCheck(m', rules) == Ok && BlobFeeCheck(m', rules) == Ok
    ensures Enforced(DropTip(m, rules, collectTips), rules)
  {
  }

  /** A sender who owns what is required can pay the price and still own the value. */
  lemma PriceCovered(m: Message, rules: Rules)
    requires Enforced(m, rules)
    ensures Price(m, rules) + m.value <= Required(m, rules)
  {
    MulMono(m.gasLimit, m.gasPrice, m.feeCap);
    if rules.cancun && BlobGas(m) > 0 {
      MulMono(BlobGas(m), rules.blobBaseFee, m.blobFeeCap);
    }
  }

  /** The purchase never underflows the sender, takes exactly the price, and leaves enough for the value. */
  lemma PurchaseExact(w: Wallets, m: Message, rules: Rules)
    requires Enforced(m, rules) && Total(w) < TWO_256 && Required(m, rules) <= Get(w, m.from)
    ensures Price(m, rules) <= Get(w, m.from)
    ensures Total(Debit(w, m.from, Price(m, rules))) + Price(m, rules) == Total(w)
    ensures m.value <= Get(Debit(w, m.from, Price(m, rules)), m.from) && m.value < TWO_256
  {
    PriceCovered(m, rules);
    GetWithinTotal(w, m.from);
    DebitExact(w, m.from, Price(m, rules));
  }

  function Mul256(x: nat, y: nat): nat {
    x * y % TWO_256
  }

  class GasPool {
    var gas: nat

    ghost predicate Valid()
      reads this
    {
      gas <= MAX_U64
    }

    constructor (limit: nat)
      requires limit <= MAX_U64
      ensures Valid() && gas == limit
    {
      gas := limit;
    }

    /** Panics when the pool would exceed a uint64, so callers must rule that out. */
    method AddGas(amount: nat)
      requires Valid() && gas + amount <= MAX_U64
      modifies this
      ensures Valid() && gas == old(gas) + amount
    {
      gas := gas + amount;
    }

    method SubGas(amount: nat) returns (ok: bool)
      requires Valid()
      modifies this
      ensures Valid() && ok == (amount <= old(gas))
      ensures gas == if ok then old(gas) - amount else old(gas)
    {
      if gas < amount {
        return false;
      }
      gas := gas - amount;
      return true;
    }
  }

  /** How a message ends: refused, finished by the start hook, or executed. */
  datatype Outcome = Failed(error: Status) | EndedByHook(usedGas: nat) | Executed(usedGas: nat, maxUsedGas: nat)

  /** What the hooks and the EVM do with a message: whether the start hook ends it, and the transfers and
      nonce increments it makes before; whether the sender has code; the intrinsic gas (none on overflow);
      gas and transfers of the charging hook; gas, transfers and refund counter of the call; and the hook's
      later answers. bumps are the accounts whose nonce the call raises, besides the sender: authorities of
      delegations and creators of contracts. */
  datatype Env = Env(startHook: Option<nat>, startMoves: seq<Move>, startBumps: seq<Address>,
                     collectTips: bool, senderHasCode: bool, intrinsic: Option<nat>,
                     hookOk: bool, hookTakes: nat, held: nat, hookMoves: seq<Move>, initCodeOk: bool,
                     callTakes: nat, callMoves: seq<Move>, bumps: seq<Address>, counter: nat,
                     nonrefundable: nat, poster: nat, recipient: Address)

  function Max(x: nat, y: nat): nat {
    if x < y then y else x
  }

  function Min(x: nat, y: nat): nat {
    if x < y then x else y
  }

  /** Largest refund for a given use. */
  function RefundCap(used: nat, nonrefundable: nat, london: bool): nat {
    if used <= nonrefundable then 0
    else (used - nonrefundable) / if london then REFUND_QUOTIENT_EIP3529 else REFUND_QUOTIENT
  }

  /** Gas the tip is paid on. */
  function ComputeGas(used: nat, poster: nat): nat {
    if used > poster then used - poster else 0
  }

  /** Gas the charging hook takes out of what it is given, and what it holds back of the rest. */
  function HookGas(env: Env, gas: nat): nat {
    Min(env.hookTakes, gas)
  }

  function HeldGas(env: Env, gas: nat): nat {
    Min(env.held, gas - HookGas(env, gas))
  }

  /** Gas the call burns: never more than it is given. */
  function CallGas(env: Env, gas: nat): nat {
    Min(env.callTakes, gas - HookGas(env, gas) - HeldGas(env, gas))
  }

  function Intrinsic(env: Env): nat {
    if env.intrinsic.Some? then env.intrinsic.value else 0
  }

  /** Gas consumed before refunds, held gas excluded. */
  function Peak(m: Message, env: Env): nat
    requires Intrinsic(env) <= m.gasLimit
  {
    var gas := m.gasLimit - Intrinsic(env);
    Intrinsic(env) + HookGas(env, gas) + CallGas(env, gas)
  }

  function Refund(m: Message, rules: Rules, env: Env): nat
    requires Intrinsic(env) <= m.gasLimit
  {
    Min(env.counter, RefundCap(Peak(m, env), env.nonrefundable, rules.london))
  }

  function Floor(m: Message, rules: Rules): nat {
    if rules.prague && FloorDataGas(m.zeros, m.nonZeros).Some? then FloorDataGas(m.zeros, m.nonZeros).value else 0
  }

  /** The gas a message pays for, and the allowance it needed. */
  function UsedGas(m: Message, rules: Rules, env: Env): nat
    requires Intrinsic(env) <= m.gasLimit
  {
    var peak, refund := Peak(m, env), Refund(m, rules, env);
    Max(if refund <= peak then peak - refund else 0, Floor(m, rules))
  }

  function MaxUsedGas(m: Message, rules: Rules, env: Env): nat
    requires Intrinsic(env) <= m.gasLimit
  {
    Max(Peak(m, env), Floor(m, rules))
  }

  /** Refunds stay under the quotient of refundable gas, data heavy messages pay the floor, and nothing
      exceeds the gas limit. */
  lemma GasBounds(m: Message, rules: Rules, env: Env)
    requires Intrinsic(env) <= m.gasLimit && Floor(m, rules) <= m.gasLimit
    ensures if Peak(m, env) <= env.nonrefundable then Refund(m, rules, env) == 0
            else if rules.london then
              REFUND_QUOTIENT_EIP3529 * Refund(m, rules, env) <= Peak(m, env) - env.nonrefundable
            else REFUND_QUOTIENT * Refund(m, rules, env) <= Peak(m, env) - env.nonrefundable
    ensures Intrinsic(env) <= Peak(m, env) <= m.gasLimit
    ensures Floor(m, rules) <= UsedGas(m, rules, env) <= MaxUsedGas(m, rules, env) <= m.gasLimit
    ensures UsedGas(m, rules, env) == Floor(m, rules)
         || UsedGas(m, rules, env) == Peak(m, env) - Refund(m, rules, env) > Floor(m, rules)
  {
    var gas := m.gasLimit - Intrinsic(env);
    assert HookGas(env, gas) + HeldGas(env, gas) + CallGas(env, gas) <= gas;
  }

  /** Dropping the tip changes prices only. */
  lemma DropTipKeepsGas(m0: Message, rules: Rules, env: Env)
    ensures var m := DropTip(m0, rules, env.collectTips);
            && m.gasLimit == m0.gasLimit && Floor(m, rules) == Floor(m0, rules)
            && (Intrinsic(env) <= m.gasLimit ==>
                  && UsedGas(m, rules, env) == UsedGas(m0, rules, env)
                  && MaxUsedGas(m, rules, env) == MaxUsedGas(m0, rules, env))
  {
    var m := DropTip(m0, rules, env.collectTips);
    if Intrinsic(env) <= m.gasLimit {
      assert Peak(m, env) == Peak(m0, env);
    }
  }

  /** The tip on the given use. */
  function Tip(m: Message, rules: Rules, used: nat, poster: nat): nat
    requires rules.baseFee <= m.gasPrice
  {
    ComputeGas(used, poster) * (m.gasPrice - rules.baseFee)
  }

  /** The wei rules of a finished execution: the supply loses the gas fee and the blob fee and gains the tip. */
  ghost predicate WeiSettled(m: Message, rules: Rules, used: nat, poster: nat, before: nat, after: nat) {
    && rules.baseFee <= m.gasPrice
    && after + used * m.gasPrice + BlobFee(m, rules) == before + Tip(m, rules, used, poster)
  }

  lemma Distribute(x: nat, y: nat, k: nat)
    ensures x * k + y * k == (x + y) * k
  {
  }

  /** Gas is worth what was paid for it, so nothing paid back or tipped exceeds the price. */
  lemma PaybackFits(m: Message, rules: Rules, remaining: nat, poster: nat)
    requires rules.baseFee <= m.gasPrice && remaining <= m.gasLimit
    ensures var used := m.gasLimit - remaining;
            && remaining * m.gasPrice + used * m.gasPrice == m.gasLimit * m.gasPrice
            && Tip(m, rules, used, poster) <= used * m.gasPrice
  {
    var used := m.gasLimit - remaining;
    Distribute(remaining, used, m.gasPrice);
    MulMono(ComputeGas(used, poster), m.gasPrice - rules.baseFee, m.gasPrice);
    MulMono(m.gasPrice, ComputeGas(used, poster), used);
  }

  /** What an executed message made from a transaction takes out of the supply. */
  ghost function Burned(m0: Message, rules: Rules, env: Env): int
    requires Intrinsic(env) <= m0.gasLimit
  {
    var m := DropTip(m0, rules, env.collectTips);
    var used := UsedGas(m0, rules, env);
    used * m.gasPrice + BlobFee(m, rules) - ComputeGas(used, env.poster) * (m.gasPrice - rules.baseFee)
  }

  lemma SettledBurns(m0: Message, rules: Rules, env: Env, before: nat, after: nat)
    requires Intrinsic(env) <= m0.gasLimit && Floor(m0, rules) <= m0.gasLimit
    requires WeiSettled(DropTip(m0, rules, env.collectTips), rules, UsedGas(m0, rules, env), env.poster, before, after)
    ensures after + Burned(m0, rules, env) == before && after <= before
  {
    GasBounds(m0, rules, env);
    PaybackFits(DropTip(m0, rules, env.collectTips), rules, m0.gasLimit - UsedGas(m0, rules, env), env.poster);
  }

  lemma Mul256Exact(x: nat, y: nat)
    requires x * y < TWO_256
    ensures Mul256(x, y) == x * y
  {
    var p := x * y;
    assert p % TWO_256 == p;
  }

  lemma CreditTwice(w: Wallets, a: Address, x: nat, b: Address, y: nat)
    requires Total(w) + x + y < TWO_256
    ensures Total(Credit(Credit(w, a, x), b, y)) == Total(w) + x + y
  {
    CreditExact(w, a, x);
    CreditExact(Credit(w, a, x), b, y);
  }

  type Nonces = map<Address, nat>

  function NonceOf(nonces: Nonces, a: Address): nat {
    if a in nonces then nonces[a] else 0
  }

  /** Nonce increments that refuse to overflow. */
  function Bumped(nonces: Nonces, bumps: seq<Address>): Nonces
    decreases |bumps|, nonces
  {
    if bumps == [] then nonces
    else
      var n := NonceOf(nonces, bumps[0]);
      Bumped(if n < MAX_U64 then nonces[bumps[0] := n + 1] else nonces, bumps[1..])
  }

  lemma {:induction false} BumpsGrow(nonces: Nonces, bumps: seq<Address>, a: Address)
    ensures NonceOf(Bumped(nonces, bumps), a) >= NonceOf(nonces, a)
    decreases |bumps|
  {
    if bumps != [] {
      var n := NonceOf(nonces, bumps[0]);
      BumpsGrow(if n < MAX_U64 then nonces[bumps[0] := n + 1] else nonces, bumps[1..], a);
    }
  }

  /** How often the address occurs. */
  function Times(bumps: seq<Address>, a: Address): nat {
    if bumps == [] then 0 else (if bumps[0] == a then 1 else 0) + Times(bumps[1..], a)
  }

  lemma {:induction false} BumpsBound(nonces: Nonces, bumps: seq<Address>, a: Address)
    ensures NonceOf(Bumped(nonces, bumps), a) <= NonceOf(nonces, a) + Times(bumps, a)
    decreases |bumps|
  {
    if bumps != [] {
      var n := NonceOf(nonces, bumps[0]);
      BumpsBound(if n < MAX_U64 then nonces[bumps[0] := n + 1] else nonces, bumps[1..], a);
    }
  }

  /** Nonces after an executed message and the call's increments: the sender's own increment wraps like a
      uint64 for a call, and is refused at the largest nonce for a creation. */
  function Advanced(nonces: Nonces, from: Address, creates: bool, bumps: seq<Address>): Nonces {
    if creates then Bumped(nonces, [from] + bumps)
    else Bumped(nonces[from := (NonceOf(nonces, from) + 1) % TWO_64], bumps)
  }

  /** Once gas was bought from the wallets: intrinsic gas, floor, charging hook, value and init code pass. */
  ghost predicate Chargeable(m: Message, rules: Rules, env: Env, wallets: Wallets) {
    && env.intrinsic.Some? && env.intrinsic.value <= m.gasLimit
    && (rules.prague ==> FloorDataGas(m.zeros, m.nonZeros).Some?) && Floor(m, rules) <= m.gasLimit
    && env.hookOk && env.initCodeOk
    && m.value < TWO_256 && m.value <= Get(Moved(wallets, env.hookMoves), m.from)
  }

  /** Nonce, rules and purchase pass. */
  ghost predicate Purchasable(m: Message, rules: Rules, senderHasCode: bool,
                              wallets: Wallets, nonces: Nonces, gas: nat) {
    && (!m.skipNonce ==> NonceOf(nonces, m.from) == m.nonce < MAX_U64)
    && Admissible(m, rules, senderHasCode)
    && Required(m, rules) < TWO_256 && Required(m, rules) <= Get(wallets, m.from) && m.gasLimit <= gas
  }

  /** The messages that are executed, given balances and nonces before the start hook and the gas left in
      the block. */
  ghost predicate Executes(m0: Message, rules: Rules, env: Env, wallets: Wallets, nonces: Nonces, gas: nat) {
    var m, w := DropTip(m0, rules, env.collectTips), Moved(wallets, env.startMoves);
    && env.startHook.None? && Purchasable(m, rules, env.senderHasCode, w, Bumped(nonces, env.startBumps), gas)
    && Chargeable(m, rules, env, Debit(w, m.from, Price(m, rules)))
  }

  class Transition {
    const gp: GasPool
    var gasRemaining: nat
    var initialGas: nat
    var wallets: Wallets
    var nonces: Nonces

    constructor (gp: GasPool, wallets: Wallets, nonces: Nonces)
      ensures this.gp == gp && this.wallets == wallets && this.nonces == nonces
    {
      this.gp, this.wallets, this.nonces := gp, wallets, nonces;
      gasRemaining, initialGas := 0, 0;
    }

    /** What the gas of the message costs, and what its sender must own. */
    static method Quote(m: Message, rules: Rules) returns (price: nat, check: nat)
      ensures price == Price(m, rules) && check == Required(m, rules)
    {
      price := m.gasLimit * m.gasPrice;
      check := m.gasLimit * m.feeCap;
      check := check + m.value;
      if rules.cancun {
        var blobGas := BlobGas(m);
        if blobGas > 0 {
          check := check + blobGas * m.blobFeeCap;
          price := price + blobGas * rules.blobBaseFee;
        }
      }
    }

    /** Reserves the gas of the message in the block and charges the sender for it. A refusal changes
        nothing. */
    method BuyGas(m: Message, rules: Rules) returns (st: Status)
      requires gp.Valid()
      modifies this`gasRemaining, this`initialGas, this`wallets, gp
      ensures gp.Valid()
      ensures st in {Ok, InsufficientFunds, GasLimitReached}
      ensures st == Ok <==>
              && Required(m, rules) < TWO_256 && Required(m, rules) <= Get(old(wallets), m.from)
              && m.gasLimit <= old(gp.gas)
      ensures st == Ok ==>
                && gp.gas + m.gasLimit == old(gp.gas) && gasRemaining == initialGas == m.gasLimit
                && wallets == Debit(old(wallets), m.from, Price(m, rules))
      ensures st != Ok ==> unchanged(this) && gp.gas == old(gp.gas)
    {
      var price, check := Quote(m, rules);
      if check >= TWO_256 {
        return InsufficientFunds;
      }
      if Get(wallets, m.from) < check {
        return InsufficientFunds;
      }
      var ok := gp.SubGas(m.gasLimit);
      if !ok {
        return GasLimitReached;
      }
      gasRemaining := m.gasLimit;
      initialGas := m.gasLimit;
      wallets := Debit(wallets, m.from, price);
      return Ok;
    }

    /** Nonce and fee rules, then the purchase of gas. */
    method PreCheck(m: Message, rules: Rules, senderHasCode: bool) returns (st: Status)
      requires gp.Valid()
      modifies this`gasRemaining, this`initialGas, this`wallets, gp
      ensures gp.Valid() && st != InsufficientFundsForTransfer
      ensures st == Ok <==> Purchasable(m, rules, senderHasCode, old(wallets), nonces, old(gp.gas))
      ensures st == Ok ==>
                && gp.gas + m.gasLimit == old(gp.gas) && gasRemaining == initialGas == m.gasLimit
                && wallets == Debit(old(wallets), m.from, Price(m, rules))
      ensures st != Ok ==> unchanged(this) && gp.gas == old(gp.gas)
    {
      if !m.skipNonce {
        var nonce := NonceOf(nonces, m.from);
        if nonce < m.nonce {
          return NonceTooHigh;
        } else if nonce > m.nonce {
          return NonceTooLow;
        } else if (nonce + 1) % TWO_64 < nonce {
          return NonceMax;
        }
      }
      st := SenderCheck(m, rules, senderHasCode);
      if st != Ok {
        return;
      }
      st := FeeCheck(m, rules);
      if st != Ok {
        return;
      }
      st := BlobCheck(m, rules);
      if st != Ok {
        return;
      }
      st := BlobFeeCheck(m, rules);
      if st != Ok {
        return;
      }
      st := AuthCheck(m);
      if st != Ok {
        return;
      }
      st := BuyGas(m, rules);
    }

    /** Gas used so far. */
    function GasUsed(): int
      reads this
    {
      initialGas - gasRemaining
    }

    method CalcRefund(rules: Rules, nonrefundable: nat, counter: nat) returns (refund: nat)
      requires gasRemaining <= initialGas
      ensures refund == Min(counter, RefundCap(GasUsed(), nonrefundable, rules.london))
    {
      refund := 0;
      if nonrefundable < GasUsed() {
        if !rules.london {
          refund := (GasUsed() - nonrefundable) / REFUND_QUOTIENT;
        } else {
          refund := (GasUsed() - nonrefundable) / REFUND_QUOTIENT_EIP3529;
        }
        if refund > counter {
          refund := counter;
        }
      }
    }

    /** From the end of the call to the final gas figure: held gas comes back, then the refund, and data
        heavy messages pay at least the floor. */
    method Settle(rules: Rules, held: nat, counter: nat, nonrefundable: nat, floor: nat)
      returns (peak: nat, refund: nat, maxUsed: nat)
      requires gasRemaining + held <= initialGas && floor <= initialGas && (rules.prague || floor == 0)
      modifies this`gasRemaining
      ensures peak == initialGas - (old(gasRemaining) + held)
      ensures refund == Min(counter, RefundCap(peak, nonrefundable, rules.london)) <= peak
      ensures gasRemaining <= initialGas && GasUsed() == Max(peak - refund, floor) && maxUsed == Max(peak, floor)
    {
      gasRemaining := gasRemaining + held;
      peak := GasUsed();
      refund := CalcRefund(rules, nonrefundable, counter);
      gasRemaining := gasRemaining + refund;
      maxUsed := peak;
      if rules.prague {
        if GasUsed() < floor {
          gasRemaining := initialGas - floor;
        }
        if maxUsed < floor {
          maxUsed := floor;
        }
      }
    }

    /** Pays back unused gas to the sender and the block. */
    method ReturnGas(m: Message)
      requires gp.Valid() && gp.gas + gasRemaining <= MAX_U64
      modifies this`wallets, gp
      ensures gp.Valid() && gp.gas == old(gp.gas) + gasRemaining
      ensures wallets == Credit(old(wallets), m.from, Mul256(gasRemaining, m.gasPrice))
    {
      wallets := Credit(wallets, m.from, Mul256(gasRemaining, m.gasPrice));
      gp.AddGas(gasRemaining);
    }

    /** Pays the tip on the gas that was not the poster's. */
    method PayTip(m: Message, rules: Rules, recipient: Address, poster: nat)
      requires gasRemaining <= initialGas
      modifies this`wallets
      ensures rules.london && !rules.noBaseFee && rules.baseFee <= m.gasPrice < TWO_256 ==>
                wallets == Credit(old(wallets), recipient,
                                  Mul256(ComputeGas(GasUsed(), poster), m.gasPrice - rules.baseFee))
    {
      var tip := if rules.london then m.gasPrice - rules.baseFee else m.gasPrice;
      if rules.noBaseFee && m.feeCap == 0 && m.tipCap == 0 {
        return;
      }
      wallets := Credit(wallets, recipient, Mul256(ComputeGas(GasUsed(), poster), tip % TWO_256));
    }

    /** Gas returned and tip paid, for a message whose fees are enforced: no product or balance wraps and
        the supply changes by exactly the fees. */
    method ReturnAndTip(m: Message, rules: Rules, recipient: Address, poster: nat, ghost before: nat)
      requires gp.Valid() && gp.gas + gasRemaining <= MAX_U64 && gasRemaining <= initialGas == m.gasLimit
      modifies this`wallets, gp
      ensures gp.Valid() && gp.gas == old(gp.gas) + gasRemaining
      ensures Enforced(m, rules) && before < TWO_256 && Total(old(wallets)) + Price(m, rules) == before ==>
                WeiSettled(m, rules, GasUsed(), poster, before, Total(wallets))
    {
      if Enforced(m, rules) && before < TWO_256 && Total(wallets) + Price(m, rules) == before {
        PaybackFits(m, rules, gasRemaining, poster);
        Mul256Exact(gasRemaining, m.gasPrice);
        Mul256Exact(ComputeGas(GasUsed(), poster), m.gasPrice - rules.baseFee);
        CreditTwice(wallets, m.from, gasRemaining * m.gasPrice, recipient, Tip(m, rules, GasUsed(), poster));
      }
      ReturnGas(m);
      PayTip(m, rules, recipient, poster);
    }

    /** Intrinsic gas, floor and charging hook, after gas was bought. */
    method Charge(m: Message, rules: Rules, env: Env) returns (st: Status, floor: nat, held: nat)
      requires gasRemaining == initialGas == m.gasLimit <= MAX_U64
      modifies this`gasRemaining, this`wallets
      ensures st == Ok <==> Chargeable(m, rules, env, old(wallets))
      ensures st == Ok ==>
                && floor == Floor(m, rules)
                && var gas := m.gasLimit - env.intrinsic.value;
                held == HeldGas(env, gas) && gasRemaining + held == gas - HookGas(env, gas)
                && wallets == Moved(old(wallets), env.hookMoves)
      ensures st == InsufficientFundsForTransfer ==>
                m.value >= TWO_256 || Get(Moved(old(wallets), env.hookMoves), m.from) < m.value
    {
      floor, held := 0, 0;
      if env.intrinsic.None? {
        return GasUintOverflow, floor, held;
      }
      if gasRemaining < env.intrinsic.value {
        return IntrinsicGas, floor, held;
      }
      if rules.prague {
        var f := FloorDataGas(m.zeros, m.nonZeros);
        if f.None? {
          return GasUintOverflow, floor, held;
        }
        if m.gasLimit < f.value {
          return FloorData, floor, held;
        }
        floor := f.value;
      }
      gasRemaining := gasRemaining - env.intrinsic.value;
      held := HeldGas(env, gasRemaining);
      gasRemaining := gasRemaining - HookGas(env, gasRemaining) - held;
      wallets := Moved(wallets, env.hookMoves);
      if !env.hookOk {
        return HookError, floor, held;
      }
      if m.value >= TWO_256 || (m.value != 0 && !CanTransfer(wallets, m.from, m.value)) {
        return InsufficientFundsForTransfer, floor, held;
      }
      if !env.initCodeOk {
        return InitCodeSize, floor, held;
      }
      st := Ok;
    }

    /** The call and everything after it. */
    method Finish(m: Message, rules: Rules, env: Env, floor: nat, held: nat, ghost before: nat)
      returns (r: Outcome)
      requires gp.Valid() && initialGas == m.gasLimit && gp.gas + m.gasLimit <= MAX_U64
      requires Intrinsic(env) <= m.gasLimit && floor == Floor(m, rules) <= m.gasLimit
      requires var gas := m.gasLimit - Intrinsic(env);
               held == HeldGas(env, gas) && gasRemaining + held == gas - HookGas(env, gas)
      modifies this`gasRemaining, this`wallets, this`nonces, gp
      ensures nonces == Advanced(old(nonces), m.from, m.creates, env.bumps)
      ensures gp.Valid() && r == Executed(UsedGas(m, rules, env), MaxUsedGas(m, rules, env))
      ensures gp.gas + r.usedGas == old(gp.gas) + m.gasLimit
      ensures Enforced(m, rules) && before < TWO_256 && Total(old(wallets)) + Price(m, rules) == before ==>
                WeiSettled(m, rules, r.usedGas, env.poster, before, Total(wallets))
    {
      GasBounds(m, rules, env);
      nonces := Advanced(nonces, m.from, m.creates, env.bumps);
      gasRemaining := gasRemaining - Min(env.callTakes, gasRemaining);
      if Total(wallets) < TWO_256 {
        MovedConserves(wallets, env.callMoves);
      }
      wallets := Moved(wallets, env.callMoves);
      var peak, refund, maxUsed := Settle(rules, held, env.counter, env.nonrefundable, floor);
      assert peak == Peak(m, env);
      assert refund == Refund(m, rules, env);
      assert GasUsed() == UsedGas(m, rules, env);
      ReturnAndTip(m, rules, env.recipient, env.poster, before);
      r := Executed(GasUsed(), maxUsed);
    }

    /** A message whose price is settled: purchase, charges and call. */
    method Perform(m: Message, rules: Rules, env: Env) returns (r: Outcome)
      requires gp.Valid() && m.gasLimit <= MAX_U64
      modifies this, gp
      ensures gp.Valid() && !r.EndedByHook?
      ensures r.Executed? <==>
              && Purchasable(m, rules, env.senderHasCode, old(wallets), old(nonces), old(gp.gas))
              && Chargeable(m, rules, env, Debit(old(wallets), m.from, Price(m, rules)))
      ensures r == Failed(InsufficientFundsForTransfer) ==>
                Purchasable(m, rules, env.senderHasCode, old(wallets), old(nonces), old(gp.gas))
      ensures nonces == if r.Executed? then Advanced(old(nonces), m.from, m.creates, env.bumps) else old(nonces)
      ensures r.Failed? ==> gp.gas == old(gp.gas) || gp.gas + m.gasLimit == old(gp.gas)
      ensures r.Executed? ==>
                && r == Executed(UsedGas(m, rules, env), MaxUsedGas(m, rules, env)) && gp.gas + r.usedGas == old(gp.gas)
      ensures Enforced(m, rules) && Total(old(wallets)) < TWO_256 ==>
                && (r.Executed? ==> WeiSettled(m, rules, r.usedGas, env.poster, Total(old(wallets)), Total(wallets)))
                && (r == Failed(InsufficientFundsForTransfer) ==>
                      var w := Debit(old(wallets), m.from, Price(m, rules));
                      Get(Moved(w, env.hookMoves), m.from) < Get(w, m.from))
    {
      ghost var w0 := wallets;
      var st := PreCheck(m, rules, env.senderHasCode);
      if st != Ok {
        return Failed(st);
      }
      if Enforced(m, rules) && Total(w0) < TWO_256 {
        PurchaseExact(w0, m, rules);
        MovedConserves(wallets, env.hookMoves);
      }
      var floor, held;
      st, floor, held := Charge(m, rules, env);
      if st != Ok {
        return Failed(st);
      }
      r := Finish(m, rules, env, floor, held, Total(w0));
    }

    /** Runs a message. An executed one uses exactly the gas the rules say and gives the block back the
        rest; under London rules with base fees enforced, a message made from a transaction changes the
        supply by exactly the fees, and once gas was bought the value check can fail only if the
        charging hook changed the sender's balance. */
    method Execute(m0: Message, rules: Rules, env: Env) returns (r: Outcome)
      requires gp.Valid() && m0.gasLimit <= MAX_U64
      modifies this, gp
      ensures gp.Valid()
      ensures r.EndedByHook? <==> env.startHook.Some?
      ensures r.Executed? <==> Executes(m0, rules, env, old(wallets), old(nonces), old(gp.gas))
      ensures r.EndedByHook? ==>
                && r.usedGas == env.startHook.value && gp.gas == old(gp.gas)
                && wallets == Moved(old(wallets), env.startMoves)
      ensures var n := Bumped(old(nonces), env.startBumps);
              nonces == if r.Executed? then Advanced(n, m0.from, m0.creates, env.bumps) else n
      ensures r.Failed? ==> gp.gas == old(gp.gas) || gp.gas + m0.gasLimit == old(gp.gas)
      ensures r.Executed? ==>
                && Intrinsic(env) <= m0.gasLimit && Floor(m0, rules) <= m0.gasLimit
                && r == Executed(UsedGas(m0, rules, env), MaxUsedGas(m0, rules, env))
                && gp.gas + r.usedGas == old(gp.gas)
      ensures rules.london && !rules.noBaseFee && FromTransaction(m0, rules) && Total(old(wallets)) < TWO_256 ==>
                var m := DropTip(m0, rules, env.collectTips);
                && (r.Executed? ==> WeiSettled(m, rules, r.usedGas, env.poster, Total(old(wallets)), Total(wallets)))
                && (r == Failed(InsufficientFundsForTransfer) ==>
                      var w := Debit(Moved(old(wallets), env.startMoves), m.from, Price(m, rules));
                      Get(Moved(w, env.hookMoves), m.from) < Get(w, m.from))
    {
      if Total(wallets) < TWO_256 {
        MovedConserves(wallets, env.startMoves);
      }
      wallets, nonces := Moved(wallets, env.startMoves), Bumped(nonces, env.startBumps);
      if env.startHook.Some? {
        return EndedByHook(env.startHook.value);
      }
      var m := DropTip(m0, rules, env.collectTips);
      DropTipKeepsGas(m0, rules, env);
      if rules.london && !rules.noBaseFee && FromTransaction(m0, rules)
         && FeeCheck(m, rules) == Ok && BlobFeeCheck(m, rules) == Ok {
        PriceInRange(m0, rules, env.collectTips);
      }
      r := Perform(m, rules, env);
    }
  }
}
