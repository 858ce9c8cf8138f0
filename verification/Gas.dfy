/** Gas accounting: buying, using and refunding gas for one message, and the block
    gas counter over a whole block.  Follows the Specification sections of EIP-1559
    (base fee burn) and EIP-3529 (refund cap).  The EVM is a parameter: a function
    from the state and the gas supplied to its outcome. */
module Gas {
  import opened Common
  import opened MapSum

  newtype byte = x: int | 0 <= x < 256
  type Addr = nat
  type Balances = map<Addr, int>

  const MAX_UINT64: nat := 0xFFFF_FFFF_FFFF_FFFF
  const TWO_256: nat := 0x1_0000000000000000_0000000000000000_0000000000000000_0000000000000000

  const TX_GAS: nat := 21000
  const TX_GAS_CONTRACT_CREATION: nat := 53000
  const TX_DATA_ZERO_GAS: nat := 4
  const TX_DATA_NON_ZERO_GAS_FRONTIER: nat := 68
  const TX_DATA_NON_ZERO_GAS_EIP2028: nat := 16
  const TX_ACCESS_LIST_ADDRESS_GAS: nat := 2400
  const TX_ACCESS_LIST_STORAGE_KEY_GAS: nat := 1900
  const REFUND_QUOTIENT: nat := 2
  const REFUND_QUOTIENT_EIP3529: nat := 5

  datatype Error =
    | NonceTooHigh | NonceTooLow | FeeCapVeryHigh | TipVeryHigh | TipAboveFeeCap | FeeCapTooLow
    | InsufficientFunds | GasLimitReached | GasUintOverflow | IntrinsicGasTooLow | InsufficientFundsForTransfer

  /** `keys` counts the storage keys of an access list of `addresses` entries. */
  datatype AccessList = AccessList(addresses: nat, keys: nat)

  datatype Message = Message(from: Addr, to: Option<Addr>, nonce: nat, checkNonce: bool, gas: nat,
                             gasPrice: nat, feeCap: Option<nat>, tipCap: nat, value: nat,
                             data: seq<byte>, accessList: Option<AccessList>)

  datatype Env = Env(homestead: bool, istanbul: bool, london: bool, noBaseFee: bool, baseFee: nat, coinbase: Addr)

  /** What the EVM makes of a message.  `destroyed` are the contracts that destroyed
      themselves, `burnt` is what they left to themselves. */
  datatype Outcome = Outcome(balances: Balances, nonces: map<Addr, nat>, gasLeft: nat, refund: nat, failed: bool,
                             destroyed: set<Addr>, burnt: nat)
  type Evm = (Balances, map<Addr, nat>, nat) -> Outcome

  /** The EVM moves ether about, makes none and burns no more than it says, and returns
      no more gas than it was given. */
  ghost predicate Conserving(evm: Evm)
  {
    forall b: Balances, n: map<Addr, nat>, g: nat ::
      Sum(evm(b, n, g).balances) == Sum(b) - evm(b, n, g).burnt && evm(b, n, g).gasLeft <= g
  }

  /** What the message constructor guarantees: before London the price is the price,
      after it the effective price of EIP-1559. */
  predicate Priced(msg: Message, env: Env)
  {
    && (msg.feeCap.Some? ==> msg.gasPrice <= msg.feeCap.value)
    && (env.london ==> msg.feeCap.Some? && msg.gasPrice == Min(msg.tipCap + env.baseFee, msg.feeCap.value))
  }

  function Min(a: int, b: int): int
  {
    if a < b then a else b
  }

  function NonZero(data: seq<byte>): (n: nat)
    ensures n <= |data|
  {
    if data == [] then 0 else (if data[0] != 0 then 1 else 0) + NonZero(data[1..])
  }

  lemma {:induction false} NonZeroStep(data: seq<byte>, i: nat)
    requires i < |data|
    ensures NonZero(data[..i + 1]) == NonZero(data[..i]) + if data[i] != 0 then 1 else 0
  {
    if i == 0 {
    } else {
      NonZeroStep(data[1..], i - 1);
      assert data[1..][..i] == data[..i + 1][1..] && data[1..][..i - 1] == data[..i][1..];
    }
  }

  /** The gas charged for the data alone, as a mathematical number. */
  function DataGas(data: seq<byte>, creation: bool, homestead: bool, eip2028: bool): nat
  {
    var nzGas := if eip2028 then TX_DATA_NON_ZERO_GAS_EIP2028 else TX_DATA_NON_ZERO_GAS_FRONTIER;
    (if creation && homestead then TX_GAS_CONTRACT_CREATION else TX_GAS)
    + NonZero(data) * nzGas + (|data| - NonZero(data)) * TX_DATA_ZERO_GAS
  }

  lemma DivGuard(room: nat, price: nat, n: nat)
    requires price > 0
    ensures room / price < n <==> room < n * price
  {
    if room / price < n {
      assert room < (room / price + 1) * price <= n * price;
    } else {
      assert n * price <= (room / price) * price <= room;
    }
  }

  method CountNonZero(data: seq<byte>) returns (nz: nat)
    ensures nz == NonZero(data)
  {
    nz := 0;
    for i := 0 to |data|
      invariant nz == NonZero(data[..i])
    {
      NonZeroStep(data, i);
      if data[i] != 0 {
        nz := nz + 1;
      }
    }
    assert data[..|data|] == data;
  }

  /** 64-bit addition. */
  function Wrap(a: nat): nat
  {
    a % 0x1_0000_0000_0000_0000
  }

  function AccessGas(l: Option<AccessList>): nat
  {
    if l.None? then 0
    else l.value.addresses * TX_ACCESS_LIST_ADDRESS_GAS + l.value.keys * TX_ACCESS_LIST_STORAGE_KEY_GAS
  }

  lemma WrapTwice(a: nat, b: nat)
    ensures Wrap(Wrap(a) + b) == Wrap(a + b)
  {
    var y := Wrap(a) + b;
    RemainderUnique(a + b, a / 0x1_0000_0000_0000_0000 + y / 0x1_0000_0000_0000_0000, Wrap(y));
  }

  lemma RemainderUnique(x: nat, q: nat, r: nat)
    requires x == q * 0x1_0000_0000_0000_0000 + r && r < 0x1_0000_0000_0000_0000
    ensures Wrap(x) == r
  {
    var d := x / 0x1_0000_0000_0000_0000 - q;
    assert Wrap(x) + d * 0x1_0000_0000_0000_0000 == r;
  }

  /** The two overflow guards reject exactly the data whose price exceeds 64 bits. */
  method ChargeData(data: seq<byte>, creation: bool, homestead: bool, eip2028: bool) returns (r: Option<nat>)
    ensures var cost := DataGas(data, creation, homestead, eip2028);
            r == if cost > MAX_UINT64 then None else Some(cost)
  {
    var nz := CountNonZero(data);
    var gas := if creation && homestead then TX_GAS_CONTRACT_CREATION else TX_GAS;
    if |data| > 0 {
      var nonZeroGas := if eip2028 then TX_DATA_NON_ZERO_GAS_EIP2028 else TX_DATA_NON_ZERO_GAS_FRONTIER;
      DivGuard(MAX_UINT64 - gas, nonZeroGas, nz);
      if (MAX_UINT64 - gas) / nonZeroGas < nz {
        return None;
      }
      gas := gas + nz * nonZeroGas;
      var z := |data| - nz;
      DivGuard(MAX_UINT64 - gas, TX_DATA_ZERO_GAS, z);
      if (MAX_UINT64 - gas) / TX_DATA_ZERO_GAS < z {
        return None;
      }
      gas := gas + z * TX_DATA_ZERO_GAS;
    }
    r := Some(gas);
  }

  /** The access list is added without a guard and wraps around. */
  method IntrinsicGas(data: seq<byte>, accessList: Option<AccessList>, creation: bool, homestead: bool, eip2028: bool)
    returns (r: Option<nat>)
    ensures var cost := DataGas(data, creation, homestead, eip2028);
            r == if cost > MAX_UINT64 then None else Some(Wrap(cost + AccessGas(accessList)))
  {
    r := ChargeData(data, creation, homestead, eip2028);
    if r.Some? && accessList.Some? {
      var a := accessList.value.addresses * TX_ACCESS_LIST_ADDRESS_GAS;
      var k := accessList.value.keys * TX_ACCESS_LIST_STORAGE_KEY_GAS;
      WrapTwice(r.value + a, k);
      var gas := Wrap(r.value + a);
      r := Some(Wrap(gas + k));
    }
  }

  /** The gas charged before execution, in 64 bits. */
  function IntrinsicOf(msg: Message, env: Env): nat
  {
    Wrap(DataGas(msg.data, msg.to.None?, env.homestead, env.istanbul) + AccessGas(msg.accessList))
  }

  function NonceOf(nonces: map<Addr, nat>, a: Addr): nat
  {
    if a in nonces then nonces[a] else 0
  }

  /** A call bumps the sender's nonce before execution; a creation leaves that to the EVM. */
  function Bumped(msg: Message, nonces: map<Addr, nat>): map<Addr, nat>
  {
    if msg.to.Some? then nonces[msg.from := NonceOf(nonces, msg.from) + 1] else nonces
  }

  class GasPool {
    var gas: nat

    constructor ()
      ensures gas == 0
    {
      gas := 0;
    }

    /** The source panics above 64 bits. */
    method AddGas(amount: nat)
      requires gas + amount <= MAX_UINT64
      modifies this
      ensures gas == old(gas) + amount
    {
      gas := gas + amount;
    }

    method SubGas(amount: nat) returns (ok: bool)
      modifies this
      ensures ok == (old(gas) >= amount)
      ensures gas == if ok then old(gas) - amount else old(gas)
    {
      ok := gas >= amount;
      if ok {
        gas := gas - amount;
      }
    }
  }

  function Credit(b: Balances, a: Addr, amount: int): Balances
  {
    b[a := At(b, a) + amount]
  }

  class StateDB {
    var balances: Balances
    var nonces: map<Addr, nat>
    var suicided: set<Addr>

    constructor (balances: Balances, nonces: map<Addr, nat>)
      ensures this.balances == balances && this.nonces == nonces && suicided == {}
    {
      this.balances, this.nonces, suicided := balances, nonces, {};
    }

    /** Delete the accounts that destroyed themselves, with whatever they hold by now. */
    method Finalise()
      modifies this
      ensures balances == old(balances) - old(suicided) && nonces == old(nonces) - old(suicided) && suicided == {}
      ensures Sum(balances) == Sum(old(balances)) - Sum(Part(old(balances), old(suicided)))
    {
      SumParts(balances, suicided);
      balances, nonces, suicided := balances - suicided, nonces - suicided, {};
    }

    method AddBalance(a: Addr, amount: int)
      modifies this`balances
      ensures balances == Credit(old(balances), a, amount)
      ensures Sum(balances) == Sum(old(balances)) + amount
    {
      SumPut(balances, a, At(balances, a) + amount);
      balances := balances[a := At(balances, a) + amount];
    }

    method SetBalance(a: Addr, amount: int)
      modifies this`balances
      ensures balances == old(balances)[a := amount]
      ensures Sum(balances) == Sum(old(balances)) - At(old(balances), a) + amount
    {
      SumPut(balances, a, amount);
      balances := balances[a := amount];
    }
  }

  datatype Result = Fail(error: Error) | Done(usedGas: nat, refund: nat, failed: bool)

  /** What a successful message costs: `gas` bought at `price`, `left` given back at
      the same price, the rest passed on at `tip`. */
  lemma FeeSplit(gas: nat, left: nat, price: int, tip: int, burnt: int)
    requires left <= gas && price == tip + burnt
    ensures -(gas * price) + left * price + (gas - left) * tip == -((gas - left) * burnt)
  {
    var used := gas - left;
    assert gas * price == used * price + left * price;
    assert used * price == used * tip + used * burnt;
  }

  /** The miner's share per gas unit. */
  function EffectiveTip(msg: Message, env: Env): int
    requires env.london ==> msg.feeCap.Some?
  {
    if env.london then Min(msg.tipCap, msg.feeCap.value - env.baseFee) else msg.gasPrice
  }

  function Burn(env: Env): nat
  {
    if env.london then env.baseFee else 0
  }

  function Quotient(env: Env): nat
  {
    if env.london then REFUND_QUOTIENT_EIP3529 else REFUND_QUOTIENT
  }

  /** ... is the price less the burnt base fee. */
  lemma TipIsPriceLessBurn(msg: Message, env: Env)
    requires Priced(msg, env)
    ensures msg.gasPrice == EffectiveTip(msg, env) + Burn(env)
  {
  }

  class StateTransition {
    const gp: GasPool
    const db: StateDB
    const msg: Message
    const env: Env
    const evm: Evm
    var gas: nat
    var initialGas: nat

    constructor (gp: GasPool, db: StateDB, msg: Message, env: Env, evm: Evm)
      ensures this.gp == gp && this.db == db && this.msg == msg && this.env == env && this.evm == evm
      ensures gas == 0 && initialGas == 0
    {
      this.gp, this.db, this.msg, this.env, this.evm := gp, db, msg, env, evm;
      gas, initialGas := 0, 0;
    }

    /** Take the gas from the block and its price from the sender, who can pay it. */
    method BuyGas() returns (e: Option<Error>)
      requires Priced(msg, env) && gas == 0
      modifies this, gp, db`balances
      ensures e.Some? ==> gp.gas == old(gp.gas) && db.balances == old(db.balances)
      ensures e.None? ==>
                && gas == initialGas == msg.gas && gp.gas == old(gp.gas) - msg.gas
                && db.balances == Credit(old(db.balances), msg.from, -(msg.gas * msg.gasPrice))
                && Sum(db.balances) == Sum(old(db.balances)) - msg.gas * msg.gasPrice
                && At(db.balances, msg.from) >= 0
    {
      var mgval := msg.gas * msg.gasPrice;
      var balanceCheck := if msg.feeCap.Some? then msg.gas * msg.feeCap.value else mgval;
      if At(db.balances, msg.from) < balanceCheck {
        return Some(InsufficientFunds);
      }
      var ok := gp.SubGas(msg.gas);
      if !ok {
        return Some(GasLimitReached);
      }
      gas := gas + msg.gas;
      initialGas := msg.gas;
      assert mgval <= balanceCheck;
      db.AddBalance(msg.from, -mgval);
      e := None;
    }

    /** The checks before any gas is bought. */
    function CheckFees(): Option<Error>
      requires env.london ==> msg.feeCap.Some?
    {
      if env.london && (!env.noBaseFee || msg.feeCap.value > 0 || msg.tipCap > 0) then
        if msg.feeCap.value >= TWO_256 then Some(FeeCapVeryHigh)
        else if msg.tipCap >= TWO_256 then Some(TipVeryHigh)
        else if msg.feeCap.value < msg.tipCap then Some(TipAboveFeeCap)
        else if msg.feeCap.value < env.baseFee then Some(FeeCapTooLow)
        else None
      else None
    }

    method PreCheck() returns (e: Option<Error>)
      requires Priced(msg, env) && gas == 0
      modifies this, gp, db`balances
      ensures e.Some? ==> gp.gas == old(gp.gas) && db.balances == old(db.balances)
      ensures e.None? ==>
                && (msg.checkNonce ==> msg.nonce == NonceOf(db.nonces, msg.from))
                && CheckFees() == None
                && gas == initialGas == msg.gas && gp.gas == old(gp.gas) - msg.gas
                && db.balances == Credit(old(db.balances), msg.from, -(msg.gas * msg.gasPrice))
                && Sum(db.balances) == Sum(old(db.balances)) - msg.gas * msg.gasPrice
                && At(db.balances, msg.from) >= 0
    {
      if msg.checkNonce {
        var stNonce := NonceOf(db.nonces, msg.from);
        if stNonce < msg.nonce {
          return Some(NonceTooHigh);
        } else if stNonce > msg.nonce {
          return Some(NonceTooLow);
        }
      }
      if CheckFees().Some? {
        return CheckFees();
      }
      e := BuyGas();
    }

    /** Apply the message.  On success the sum of all balances changes by exactly the
        burnt base fee on the gas used and what the EVM burnt, the block counter by the gas used, the refund
        is at most the given fraction of the gas used, and beside what the EVM did the
        sender paid for the gas used and the coinbase got the tip on it. */
    method TransitionDb() returns (r: Result, ghost out: Outcome)
      requires Priced(msg, env) && Conserving(evm) && gas == 0 && gp.gas <= MAX_UINT64
      modifies this, gp, db
      ensures r.Fail? ==> gp.gas == old(gp.gas) || gp.gas == old(gp.gas) - msg.gas
      ensures r.Done? ==>
                && CheckFees() == None && msg.gas <= old(gp.gas)
                && r.usedGas <= msg.gas && gp.gas == old(gp.gas) - r.usedGas
                && Sum(db.balances) == Sum(old(db.balances)) - r.usedGas * Burn(env) - out.burnt
                && db.suicided == out.destroyed && db.nonces == out.nonces
                && r.refund * Quotient(env) <= r.usedGas + r.refund && r.refund <= out.refund
      ensures r.Done? ==>
                && At(Credit(old(db.balances), msg.from, -(msg.gas * msg.gasPrice)), msg.from) >= 0
                && Covered(Tx(msg, evm), env)
                && DataGas(msg.data, msg.to.None?, env.homestead, env.istanbul) <= MAX_UINT64
                && out == OutcomeOf(Tx(msg, evm), env, Accounts(old(db.balances), old(db.nonces)))
                && db.balances == Settled(msg, env, out, r.usedGas)
    {
      var pre := PreCheck();
      if pre.Some? {
        return Fail(pre.value), Outcome(map[], map[], 0, 0, false, {}, 0);
      }
      r, out := Execute();
    }

    /** With the gas bought: charge the intrinsic gas, run the EVM and settle. */
    method Execute() returns (r: Result, ghost out: Outcome)
      requires Priced(msg, env) && Conserving(evm) && gas == initialGas == msg.gas && gp.gas + msg.gas <= MAX_UINT64
      modifies this, gp, db
      ensures r.Fail? ==> gp.gas == old(gp.gas)
      ensures r.Done? ==>
                && IntrinsicOf(msg, env) <= msg.gas
                && DataGas(msg.data, msg.to.None?, env.homestead, env.istanbul) <= MAX_UINT64
                && out == evm(old(db.balances), Bumped(msg, old(db.nonces)), msg.gas - IntrinsicOf(msg, env))
                && r.usedGas <= msg.gas && gp.gas == old(gp.gas) + msg.gas - r.usedGas
                && r.refund * Quotient(env) <= r.usedGas + r.refund && r.refund <= out.refund
                && Sum(db.balances) ==
                   Sum(old(db.balances)) + msg.gas * msg.gasPrice - r.usedGas * Burn(env) - out.burnt
                && db.suicided == out.destroyed && db.nonces == out.nonces
                && db.balances == Settled(msg, env, out, r.usedGas)
    {
      out := Outcome(map[], map[], 0, 0, false, {}, 0);
      var intrinsic := IntrinsicGas(msg.data, msg.accessList, msg.to.None?, env.homestead, env.istanbul);
      if intrinsic.None? {
        return Fail(GasUintOverflow), out;
      }
      if gas < intrinsic.value {
        return Fail(IntrinsicGasTooLow), out;
      }
      var left := gas - intrinsic.value;
      if msg.value > 0 && At(db.balances, msg.from) < msg.value {
        return Fail(InsufficientFundsForTransfer), out;
      }
      r, out := RunEvm(left);
    }

    /** Run the EVM on the gas left and settle. */
    method RunEvm(left: nat) returns (r: Result, ghost out: Outcome)
      requires Priced(msg, env) && Conserving(evm) && left <= initialGas == msg.gas && gp.gas + msg.gas <= MAX_UINT64
      modifies this`gas, gp, db
      ensures out == evm(old(db.balances), Bumped(msg, old(db.nonces)), left)
      ensures r.Done? && r.usedGas <= msg.gas && gp.gas == old(gp.gas) + msg.gas - r.usedGas
      ensures r.refund * Quotient(env) <= r.usedGas + r.refund && r.refund <= out.refund
      ensures Sum(db.balances) ==
              Sum(old(db.balances)) + msg.gas * msg.gasPrice - r.usedGas * Burn(env) - out.burnt
      ensures db.suicided == out.destroyed && db.nonces == out.nonces
      ensures db.balances == Settled(msg, env, out, r.usedGas)
    {
      var outcome := evm(db.balances, Bumped(msg, db.nonces), left);
      out := outcome;
      db.balances, db.nonces, gas := outcome.balances, outcome.nonces, outcome.gasLeft;
      db.suicided := outcome.destroyed;
      var refund, used := Settle(outcome.refund);
      r := Done(used, refund, outcome.failed);
    }

    /** Refund the sender and pay the coinbase: all of the price paid comes back to
        them except the burnt base fee on the gas used. */
    method Settle(counter: nat) returns (refund: nat, used: nat)
      requires Priced(msg, env) && initialGas == msg.gas && gas <= initialGas && gp.gas + initialGas <= MAX_UINT64
      modifies this`gas, gp, db`balances
      ensures used <= msg.gas && gp.gas == old(gp.gas) + msg.gas - used
      ensures refund * Quotient(env) <= used + refund && refund <= counter
      ensures Sum(db.balances) == Sum(old(db.balances)) + msg.gas * msg.gasPrice - used * Burn(env)
      ensures db.balances == Credit(Credit(old(db.balances), msg.from, (msg.gas - used) * msg.gasPrice),
                                    env.coinbase, used * EffectiveTip(msg, env))
    {
      refund := RefundGas(Quotient(env), counter);
      used := initialGas - gas;
      TipIsPriceLessBurn(msg, env);
      FeeSplit(msg.gas, gas, msg.gasPrice, EffectiveTip(msg, env), Burn(env));
      db.AddBalance(env.coinbase, used * EffectiveTip(msg, env));
    }

    /** Give back the capped refund and the unused gas, to the sender and to the block. */
    method RefundGas(quotient: nat, counter: nat) returns (refund: nat)
      requires quotient > 0 && gas <= initialGas && gp.gas + initialGas <= MAX_UINT64
      modifies this`gas, gp, db`balances
      ensures refund * quotient <= initialGas - old(gas) && refund <= counter
      ensures refund == counter || refund == (initialGas - old(gas)) / quotient
      ensures gas == old(gas) + refund <= initialGas && gp.gas == old(gp.gas) + gas
      ensures db.balances == Credit(old(db.balances), msg.from, gas * msg.gasPrice)
      ensures Sum(db.balances) == Sum(old(db.balances)) + gas * msg.gasPrice
    {
      refund := (initialGas - gas) / quotient;
      DivBound(initialGas - gas, quotient);
      if refund > counter {
        refund := counter;
      }
      assert refund * quotient <= initialGas - gas by {
        assert refund * quotient <= ((initialGas - gas) / quotient) * quotient;
      }
      gas := gas + refund;
      db.AddBalance(msg.from, gas * msg.gasPrice);
      gp.AddGas(gas);
    }
  }

  lemma DivBound(a: nat, q: nat)
    requires q > 0
    ensures a / q * q <= a && a / q <= a
  {
    MulGrows(a / q, q);
  }

  lemma MulGrows(d: nat, q: nat)
    requires q > 0
    ensures d <= d * q
  {
    assert d * q == d * (q - 1) + d;
  }

  // ------------------------------------------------------------- whole blocks

  datatype Receipt = Receipt(gasUsed: nat, cumulative: nat, failed: bool)
  /** A transaction: its message and what the EVM makes of it. */
  datatype Tx = Tx(msg: Message, evm: Evm)

  function GasSum(rs: seq<Receipt>): nat
  {
    if rs == [] then 0 else GasSum(rs[..|rs| - 1]) + rs[|rs| - 1].gasUsed
  }

  /** Each cumulative value is the sum of the gas used up to its receipt. */
  ghost predicate Cumulative(rs: seq<Receipt>)
  {
    forall i | 0 <= i < |rs| :: rs[i].cumulative == GasSum(rs[..i + 1])
  }

  lemma CumulativeAppend(rs: seq<Receipt>, r: Receipt)
    requires Cumulative(rs) && r.cumulative == GasSum(rs) + r.gasUsed
    ensures Cumulative(rs + [r]) && GasSum(rs + [r]) == r.cumulative
  {
    var rs' := rs + [r];
    assert rs'[..|rs|] == rs;
    forall i | 0 <= i < |rs'| ensures rs'[i].cumulative == GasSum(rs'[..i + 1]) {
      if i < |rs| { assert rs'[..i + 1] == rs[..i + 1]; } else { assert rs'[..i + 1] == rs'; }
    }
  }

  lemma BurnAdds(a: nat, b: nat, fee: nat)
    ensures (a + b) * fee == a * fee + b * fee
  {
  }

  /** What the sender and the coinbase of a message end with, the EVM's work included. */
  function Settled(msg: Message, env: Env, out: Outcome, used: nat): Balances
    requires Priced(msg, env)
  {
    Credit(Credit(out.balances, msg.from, (msg.gas - used) * msg.gasPrice), env.coinbase, used * EffectiveTip(msg, env))
  }

  /** What a transaction destroys: what contracts left to themselves, and what they were
      paid after their destruction. */
  ghost function Lost(msg: Message, env: Env, out: Outcome, used: nat): int
    requires Priced(msg, env)
  {
    out.burnt + Sum(Part(Settled(msg, env, out, used), out.destroyed))
  }

  /** Nothing is paid to a destroyed account unless it is the sender or the coinbase; a
      destroyed coinbase loses its tip. */
  lemma LostIs(msg: Message, env: Env, out: Outcome, used: nat)
    requires Priced(msg, env) && msg.from !in out.destroyed && forall a | a in out.destroyed :: At(out.balances, a) == 0
    ensures Lost(msg, env, out, used) ==
              out.burnt + if env.coinbase in out.destroyed then used * EffectiveTip(msg, env) else 0
  {
    var part := Part(Settled(msg, env, out, used), out.destroyed);
    if env.coinbase in out.destroyed {
      SumTake(part, env.coinbase);
      SumZero(part - {env.coinbase});
    } else {
      SumZero(part);
    }
  }

  datatype Accounts = Accounts(balances: Balances, nonces: map<Addr, nat>)

  /** The gas covers the intrinsic cost. */
  predicate Covered(tx: Tx, env: Env)
  {
    Priced(tx.msg, env) && IntrinsicOf(tx.msg, env) <= tx.msg.gas
  }

  /** What the EVM makes of a transaction: it starts with the gas paid for in full. */
  function OutcomeOf(tx: Tx, env: Env, acc: Accounts): Outcome
    requires Covered(tx, env)
  {
    tx.evm(Credit(acc.balances, tx.msg.from, -(tx.msg.gas * tx.msg.gasPrice)), Bumped(tx.msg, acc.nonces),
           tx.msg.gas - IntrinsicOf(tx.msg, env))
  }

  /** The accounts after a transaction that used so much gas. */
  function After(tx: Tx, env: Env, acc: Accounts, used: nat): Accounts
    requires Covered(tx, env)
  {
    var out := OutcomeOf(tx, env, acc);
    Accounts(Settled(tx.msg, env, out, used) - out.destroyed, out.nonces - out.destroyed)
  }

  /** The receipt and the accounts after a transaction. */
  ghost predicate Transacted(tx: Tx, env: Env, was: Accounts, used: nat, now: Accounts)
  {
    && Covered(tx, env) && now == After(tx, env, was, used)
    && Sum(now.balances) == Sum(was.balances) - used * Burn(env) - Lost(tx.msg, env, OutcomeOf(tx, env, was), used)
  }

  /** Apply one transaction and delete what destroyed itself. */
  method ApplyTransaction(gp: GasPool, db: StateDB, tx: Tx, env: Env, usedGas0: nat) returns (r: Option<Receipt>)
    requires Priced(tx.msg, env) && Conserving(tx.evm) && gp.gas <= MAX_UINT64
    modifies gp, db
    ensures r.Some? ==> gp.gas == old(gp.gas) - r.value.gasUsed && r.value.cumulative == usedGas0 + r.value.gasUsed
    ensures r.Some? ==> Transacted(tx, env, Accounts(old(db.balances), old(db.nonces)), r.value.gasUsed,
                                   Accounts(db.balances, db.nonces))
  {
    var st := new StateTransition(gp, db, tx.msg, env, tx.evm);
    var result;
    ghost var out;
    result, out := st.TransitionDb();
    if result.Fail? {
      return None;
    }
    db.Finalise();
    r := Some(Receipt(result.usedGas, usedGas0 + result.usedGas, result.failed));
  }

  ghost predicate StepAt(txs: seq<Tx>, env: Env, rs: seq<Receipt>, states: seq<Accounts>, i: nat)
    requires i < |rs| <= |txs| && |states| == |rs| + 1
  {
    Transacted(txs[i], env, states[i], rs[i].gasUsed, states[i + 1])
  }

  /** The accounts before each transaction and after the last. */
  ghost predicate Traced(txs: seq<Tx>, env: Env, rs: seq<Receipt>, states: seq<Accounts>)
  {
    && |rs| <= |txs| && |states| == |rs| + 1
    && forall i: nat {:trigger StepAt(txs, env, rs, states, i)} | i < |rs| :: StepAt(txs, env, rs, states, i)
  }

  lemma TraceNext(txs: seq<Tx>, env: Env, rs: seq<Receipt>, states: seq<Accounts>, was: Accounts, tx: Tx, r: Receipt,
                  now: Accounts)
    requires Traced(txs, env, rs, states) && |rs| < |txs| && was == states[|rs|] && tx == txs[|rs|]
    requires Transacted(tx, env, was, r.gasUsed, now)
    ensures Traced(txs, env, rs + [r], states + [now])
  {
    forall i: nat | i < |rs| + 1 ensures StepAt(txs, env, rs + [r], states + [now], i) {
      if i < |rs| { assert StepAt(txs, env, rs, states, i); }
    }
  }

  /** What the first `n` transactions destroyed. */
  ghost function AllLost(txs: seq<Tx>, env: Env, rs: seq<Receipt>, states: seq<Accounts>, n: nat): int
    requires Traced(txs, env, rs, states) && n <= |rs|
  {
    if n == 0 then 0 else AllLost(txs, env, rs, states, n - 1) + LostAt(txs, env, rs, states, n - 1)
  }

  ghost function LostAt(txs: seq<Tx>, env: Env, rs: seq<Receipt>, states: seq<Accounts>, i: nat): int
    requires Traced(txs, env, rs, states) && i < |rs|
  {
    assert StepAt(txs, env, rs, states, i);
    Lost(txs[i].msg, env, OutcomeOf(txs[i], env, states[i]), rs[i].gasUsed)
  }

  lemma SumNext(txs: seq<Tx>, env: Env, rs: seq<Receipt>, states: seq<Accounts>, i: nat)
    requires Traced(txs, env, rs, states) && i < |rs|
    ensures Sum(states[i + 1].balances) ==
            Sum(states[i].balances) - rs[i].gasUsed * Burn(env) - LostAt(txs, env, rs, states, i)
  {
    assert StepAt(txs, env, rs, states, i);
  }

  lemma GasSumNext(rs: seq<Receipt>, n: nat)
    requires n < |rs|
    ensures GasSum(rs[..n + 1]) == GasSum(rs[..n]) + rs[n].gasUsed
  {
    assert rs[..n + 1][..n] == rs[..n];
  }

  lemma Accumulates(first: int, was: int, now: int, used: nat, more: nat, fee: nat, lost: int, moreLost: int)
    requires was == first - used * fee - lost && now == was - more * fee - moreLost
    ensures now == first - (used + more) * fee - (lost + moreLost)
  {
    BurnAdds(used, more, fee);
  }

  /** Over the first `n` transactions the balances lose the burnt fees and what was destroyed. */
  lemma {:induction false} BlockSum(txs: seq<Tx>, env: Env, rs: seq<Receipt>, states: seq<Accounts>, n: nat)
    requires Traced(txs, env, rs, states) && n <= |rs|
    ensures Sum(states[n].balances) ==
            Sum(states[0].balances) - GasSum(rs[..n]) * Burn(env) - AllLost(txs, env, rs, states, n)
  {
    if n == 0 {
    } else {
      BlockSum(txs, env, rs, states, n - 1);
      SumNext(txs, env, rs, states, n - 1);
      GasSumNext(rs, n - 1);
      Accumulates(Sum(states[0].balances), Sum(states[n - 1].balances), Sum(states[n].balances), GasSum(rs[..n - 1]),
                  rs[n - 1].gasUsed, Burn(env), AllLost(txs, env, rs, states, n - 1),
                  LostAt(txs, env, rs, states, n - 1));
    }
  }

  /** Process the transactions: receipts, the gas used, and what is left of the block's gas. */
  method ApplyAll(gasLimit: nat, txs: seq<Tx>, env: Env, db: StateDB)
    returns (r: Option<seq<Receipt>>, usedGas: nat, remaining: nat, ghost states: seq<Accounts>)
    requires gasLimit <= MAX_UINT64
    requires forall i | 0 <= i < |txs| :: Priced(txs[i].msg, env) && Conserving(txs[i].evm)
    modifies db
    ensures r.Some? ==>
              && |r.value| == |txs| && Cumulative(r.value) && usedGas == GasSum(r.value) == gasLimit - remaining
              && Traced(txs, env, r.value, states) && states[0] == Accounts(old(db.balances), old(db.nonces))
              && states[|txs|] == Accounts(db.balances, db.nonces)
  {
    var gp := new GasPool();
    gp.AddGas(gasLimit);
    var receipts: seq<Receipt> := [];
    usedGas, remaining, states := 0, gasLimit, [Accounts(db.balances, db.nonces)];
    for i := 0 to |txs|
      invariant |receipts| == i && Cumulative(receipts) && usedGas == GasSum(receipts)
      invariant gp.gas + usedGas == gasLimit && fresh(gp)
      invariant Traced(txs, env, receipts, states) && states[0] == Accounts(old(db.balances), old(db.nonces))
      invariant states[i] == Accounts(db.balances, db.nonces)
    {
      ghost var was := Accounts(db.balances, db.nonces);
      var receipt := ApplyTransaction(gp, db, txs[i], env, usedGas);
      if receipt.None? {
        return None, 0, gp.gas, [];
      }
      ghost var now := Accounts(db.balances, db.nonces);
      CumulativeAppend(receipts, receipt.value);
      TraceNext(txs, env, receipts, states, was, txs[i], receipt.value, now);
      usedGas := usedGas + receipt.value.gasUsed;
      receipts, states := receipts + [receipt.value], states + [now];
    }
    r, remaining := Some(receipts), gp.gas;
  }

  /** Move the funds of the drained accounts to the refund contract. */
  method ApplyDaoFork(db: StateDB, drained: seq<Addr>, refund: Addr)
    modifies db`balances
    ensures forall a | a != refund :: At(db.balances, a) == if a in drained then 0 else At(old(db.balances), a)
    ensures refund !in drained ==> Sum(db.balances) == Sum(old(db.balances))
  {
    for i := 0 to |drained|
      invariant forall a | a != refund :: At(db.balances, a) == if a in drained[..i] then 0 else At(old(db.balances), a)
      invariant refund !in drained ==> Sum(db.balances) == Sum(old(db.balances))
    {
      assert drained[..i + 1] == drained[..i] + [drained[i]];
      db.AddBalance(refund, At(db.balances, drained[i]));
      db.SetBalance(drained[i], 0);
    }
    assert drained[..|drained|] == drained;
  }

  datatype Uncle = Uncle(number: nat, coinbase: Addr)
  datatype Block = Block(number: nat, gasLimit: nat, txs: seq<Tx>, uncles: seq<Uncle>)

  /** What an uncle's miner gets: an eighth less for every block it is late. */
  function UncleReward(u: Uncle, number: nat, reward: nat): int
  {
    (u.number + 8 - number) * reward / 8
  }

  function UnclesPaid(b: Balances, uncles: seq<Uncle>, number: nat, reward: nat): Balances
  {
    if uncles == [] then b
    else
      var last := uncles[|uncles| - 1];
      Credit(UnclesPaid(b, uncles[..|uncles| - 1], number, reward), last.coinbase, UncleReward(last, number, reward))
  }

  /** All that a block's reward adds: the miner gets a 32nd more for each uncle. */
  function Minted(uncles: seq<Uncle>, number: nat, reward: nat): int
  {
    if uncles == [] then reward
    else
      var last := |uncles| - 1;
      Minted(uncles[..last], number, reward) + UncleReward(uncles[last], number, reward) + reward / 32
  }

  /** Reward the miner and the uncles' miners. */
  method AccumulateRewards(db: StateDB, number: nat, coinbase: Addr, uncles: seq<Uncle>, blockReward: nat)
    modifies db`balances
    ensures db.balances == Credit(UnclesPaid(old(db.balances), uncles, number, blockReward), coinbase,
                                  blockReward + |uncles| * (blockReward / 32))
    ensures Sum(db.balances) == Sum(old(db.balances)) + Minted(uncles, number, blockReward)
  {
    var reward := blockReward;
    for i := 0 to |uncles|
      invariant db.balances == UnclesPaid(old(db.balances), uncles[..i], number, blockReward)
      invariant reward == blockReward + i * (blockReward / 32)
      invariant Sum(db.balances) + reward == Sum(old(db.balances)) + Minted(uncles[..i], number, blockReward)
    {
      assert uncles[..i + 1][..i] == uncles[..i];
      db.AddBalance(uncles[i].coinbase, UncleReward(uncles[i], number, blockReward));
      reward := reward + blockReward / 32;
    }
    assert uncles[..|uncles|] == uncles;
    db.AddBalance(coinbase, reward);
  }

  /** The accounts drained at the DAO fork and the contract that receives their funds. */
  datatype Fork = Fork(drained: seq<Addr>, refund: Addr)

  /** Process a block.  `fork` is given at the DAO fork block only, and the refund contract
      is none of the drained accounts; `reward` is given if the engine pays one.  `states`
      are the accounts before and after each transaction. */
  method Process(block: Block, env: Env, fork: Option<Fork>, reward: Option<nat>, db: StateDB)
    returns (r: Option<seq<Receipt>>, usedGas: nat, remaining: nat, ghost states: seq<Accounts>)
    requires block.gasLimit <= MAX_UINT64 && (fork.Some? ==> fork.value.refund !in fork.value.drained)
    requires forall i | 0 <= i < |block.txs| :: Priced(block.txs[i].msg, env) && Conserving(block.txs[i].evm)
    modifies db
    ensures r.Some? ==>
              && |r.value| == |block.txs| && Cumulative(r.value)
              && usedGas == GasSum(r.value) == block.gasLimit - remaining
              && Traced(block.txs, env, r.value, states)
              && (fork.None? ==> states[0] == Accounts(old(db.balances), old(db.nonces)))
              && Sum(db.balances) == Sum(old(db.balances)) - usedGas * Burn(env)
                                     - AllLost(block.txs, env, r.value, states, |block.txs|)
                                     + if reward.Some? then Minted(block.uncles, block.number, reward.value) else 0
  {
    if fork.Some? {
      ApplyDaoFork(db, fork.value.drained, fork.value.refund);
    }
    r, usedGas, remaining, states := ApplyAll(block.gasLimit, block.txs, env, db);
    if r.Some? {
      BlockSum(block.txs, env, r.value, states, |block.txs|);
      assert r.value[..|block.txs|] == r.value;
      if reward.Some? {
        AccumulateRewards(db, block.number, env.coinbase, block.uncles, reward.value);
      }
    }
  }
}
