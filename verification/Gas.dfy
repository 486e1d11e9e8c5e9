/** Gas and balance accounting of core/state_transition.go, core/gaspool.go and
    core/state_processor.go. The EVM is a parameter. */
module Gas {
  import opened TxTypes

  const MAX_UINT64: nat := 0xFFFF_FFFF_FFFF_FFFF
  const TX_GAS: nat := 21000
  const TX_GAS_CONTRACT_CREATION: nat := 53000
  const TX_DATA_ZERO_GAS: nat := 4
  const TX_DATA_NON_ZERO_GAS: nat := 68

  // ----- Balances -----

  type Balances = map<Addr, int>

  function BalanceOf(b: Balances, a: Addr): int { if a in b then b[a] else 0 }
  function Credit(b: Balances, a: Addr, amount: int): Balances { b[a := BalanceOf(b, a) + amount] }

  /** The balance of all accounts together. */
  ghost function Supply(b: Balances): int
    decreases |b|
  {
    if b == map[] then 0
    else
      var a := Least(b.Keys);
      assert (b - {a}).Keys == b.Keys - {a};
      b[a] + Supply(b - {a})
  }

  lemma {:induction false} SupplyAt(b: Balances, a: Addr)
    requires a in b
    ensures Supply(b) == b[a] + Supply(b - {a})
    decreases |b|
  {
    var l := Least(b.Keys);
    if a != l {
      assert (b - {l}).Keys == b.Keys - {l} && (b - {a}).Keys == b.Keys - {a};
      SupplyAt(b - {l}, a);
      assert IsLeast((b - {a}).Keys, l);
      assert Least((b - {a}).Keys) == l;
      assert b - {l} - {a} == b - {a} - {l};
    }
  }

  lemma CreditSupply(b: Balances, a: Addr, amount: int)
    ensures Supply(Credit(b, a, amount)) == Supply(b) + amount
  {
    var b' := Credit(b, a, amount);
    SupplyAt(b', a);
    if a in b {
      SupplyAt(b, a);
      assert b' - {a} == b - {a};
    } else {
      assert b' - {a} == b;
    }
  }

  // ----- Intrinsic gas -----

  function NonZero(data: seq<nat>): nat {
    if data == [] then 0 else NonZero(data[..|data| - 1]) + if data[|data| - 1] != 0 then 1 else 0
  }

  lemma {:induction false} NonZeroBound(data: seq<nat>)
    ensures NonZero(data) <= |data|
  {
    if data != [] { NonZeroBound(data[..|data| - 1]); }
  }

  function BaseGas(creation: bool, homestead: bool): nat {
    if creation && homestead then TX_GAS_CONTRACT_CREATION else TX_GAS
  }

  /** The price of a message in unbounded arithmetic. */
  function TrueIntrinsic(data: seq<nat>, creation: bool, homestead: bool): int {
    BaseGas(creation, homestead) + NonZero(data) * TX_DATA_NON_ZERO_GAS + (|data| - NonZero(data)) * TX_DATA_ZERO_GAS
  }

  /** The checked multiplication: the division test is exact. */
  lemma RoomFor(gas: nat, n: nat, price: nat)
    requires gas <= MAX_UINT64 && price > 0
    ensures (MAX_UINT64 - gas) / price < n <==> gas + n * price > MAX_UINT64
  {
    var room := MAX_UINT64 - gas;
    var d := room / price;
    assert room == d * price + room % price;
    if d < n {
      assert (d + 1) * price <= n * price by { MulMonotone(d + 1, n, price); }
      assert d * price + price == (d + 1) * price;
    } else {
      assert n * price <= d * price by { MulMonotone(n, d, price); }
    }
  }

  lemma MulMonotone(x: int, y: int, z: nat)
    requires x <= y
    ensures x * z <= y * z
  {
  }

  /** IntrinsicGas fails exactly when the price does not fit 64 bits, and is exact otherwise. */
  method IntrinsicGas(data: seq<nat>, creation: bool, homestead: bool) returns (gas: Option<nat>)
    requires |data| <= MAX_UINT64
    ensures gas.None? <==> TrueIntrinsic(data, creation, homestead) > MAX_UINT64
    ensures gas.Some? ==> gas.value == TrueIntrinsic(data, creation, homestead)
  {
    var g := BaseGas(creation, homestead);
    if |data| > 0 {
      var nz: nat := 0;
      for i := 0 to |data|
        invariant nz == NonZero(data[..i]) && nz <= i
      {
        assert data[..i + 1][..i] == data[..i];
        if data[i] != 0 { nz := nz + 1; }
      }
      assert data[..|data|] == data;
      RoomFor(g, nz, TX_DATA_NON_ZERO_GAS);
      if (MAX_UINT64 - g) / TX_DATA_NON_ZERO_GAS < nz { return None; }
      g := g + nz * TX_DATA_NON_ZERO_GAS;
      var z := |data| - nz;
      RoomFor(g, z, TX_DATA_ZERO_GAS);
      if (MAX_UINT64 - g) / TX_DATA_ZERO_GAS < z { return None; }
      g := g + z * TX_DATA_ZERO_GAS;
    }
    return Some(g);
  }

  // ----- One transaction -----

  datatype World = World(balances: Balances, nonces: map<Addr, nat>)

  datatype VmError = NoError | InsufficientBalance | OtherError

  /** What an EVM run leaves: the world, the gas, the refund counter and an error. */
  datatype Outcome = Outcome(world: World, gas: nat, refund: nat, error: VmError)

  type Evm = (World, nat) -> Outcome

  /** The EVM moves balances around and never returns more gas than it got. */
  ghost predicate Lawful(run: Evm) {
    forall w, g :: Supply(run(w, g).world.balances) == Supply(w.balances) && run(w, g).gas <= g
  }

  datatype Message = Message(from: Addr, nonce: nat, checkNonce: bool, price: nat, gas: nat, data: seq<nat>,
                             creation: bool, homestead: bool, run: Evm)

  datatype Error = NonceTooHigh | NonceTooLow | NoFundsForGas | GasLimitReached | OutOfGas | NoFunds

  function NonceOf(w: World, a: Addr): nat { if a in w.nonces then w.nonces[a] else 0 }

  /** The gas is paid for; a call, unlike a creation, raises the nonce here. */
  function Paid(msg: Message, w: World): World {
    World(Credit(w.balances, msg.from, -(msg.gas * msg.price)),
          if msg.creation then w.nonces else w.nonces[msg.from := NonceOf(w, msg.from) + 1])
  }

  predicate NonceOk(msg: Message, w: World) { msg.checkNonce ==> NonceOf(w, msg.from) == msg.nonce }

  /** The conditions under which preCheck lets a message pass. */
  predicate Affordable(msg: Message, w: World, pool: nat) {
    NonceOk(msg, w) && msg.gas * msg.price <= BalanceOf(w.balances, msg.from) && msg.gas <= pool
  }

  function Intrinsic(msg: Message): int { TrueIntrinsic(msg.data, msg.creation, msg.homestead) }

  function Run(msg: Message, w: World): Outcome
    requires 0 <= Intrinsic(msg) <= msg.gas
  {
    msg.run(Paid(msg, w), msg.gas - Intrinsic(msg))
  }

  function Min(a: int, b: int): int { if a <= b then a else b }

  /** Gas used: what the run took, less the refund, which is capped to half of it. */
  function Used(msg: Message, w: World): int
    requires 0 <= Intrinsic(msg) <= msg.gas
  {
    var raw := msg.gas - Run(msg, w).gas;
    raw - Min(raw / 2, Run(msg, w).refund)
  }

  /** The world after a transaction: the sender gets the unused gas back, the coinbase is paid
      for the used gas. */
  function Settled(msg: Message, w: World, coinbase: Addr): World
    requires 0 <= Intrinsic(msg) <= msg.gas
  {
    var out, used := Run(msg, w).world, Used(msg, w);
    out.(balances := Credit(Credit(out.balances, msg.from, (msg.gas - used) * msg.price), coinbase, used * msg.price))
  }

  /** A transaction creates and destroys no balance, and its refund is at most half its gas. */
  lemma Conserved(msg: Message, w: World, coinbase: Addr)
    requires 0 <= Intrinsic(msg) <= msg.gas && Lawful(msg.run)
    ensures Supply(Settled(msg, w, coinbase).balances) == Supply(w.balances)
    ensures 0 <= Used(msg, w) <= msg.gas && 2 * Used(msg, w) >= Intrinsic(msg)
    ensures 2 * Used(msg, w) >= msg.gas - Run(msg, w).gas >= Used(msg, w)
  {
    var out, used := Run(msg, w).world, Used(msg, w);
    var paid := Paid(msg, w);
    CreditSupply(w.balances, msg.from, -(msg.gas * msg.price));
    CreditSupply(out.balances, msg.from, (msg.gas - used) * msg.price);
    CreditSupply(Credit(out.balances, msg.from, (msg.gas - used) * msg.price), coinbase, used * msg.price);
    assert Supply(out.balances) == Supply(paid.balances);
    Distributes(msg.gas, used, msg.price);
  }

  lemma Distributes(a: int, b: int, c: int)
    ensures (a - b) * c + b * c == a * c
  {
  }

  lemma IntrinsicNatural(msg: Message)
    ensures Intrinsic(msg) >= 0
  {
    NonZeroBound(msg.data);
  }

  /** Besides what the EVM moved, the sender has paid for exactly the used gas, the coinbase has
      received that, and nobody else pays or receives anything. */
  lemma PaysForGas(msg: Message, w: World, coinbase: Addr, a: Addr)
    requires 0 <= Intrinsic(msg) <= msg.gas
    ensures BalanceOf(Settled(msg, w, coinbase).balances, a) - BalanceOf(w.balances, a) ==
              BalanceOf(Run(msg, w).world.balances, a) - BalanceOf(Paid(msg, w).balances, a)
              - (if a == msg.from then Used(msg, w) * msg.price else 0)
              + (if a == coinbase then Used(msg, w) * msg.price else 0)
  {
    Distributes(msg.gas, Used(msg, w), msg.price);
  }

  class GasPool {
    var gas: nat

    constructor (limit: nat)
      ensures gas == limit
    {
      gas := limit;
    }

    /** AddGas; its overflow panic is shown never to be reached. */
    method AddGas(amount: nat)
      requires gas <= MAX_UINT64 - amount
      modifies this
      ensures gas == old(gas) + amount
    {
      gas := gas + amount;
    }

    method SubGas(amount: nat) returns (ok: bool)
      modifies this
      ensures ok == (amount <= old(gas)) && gas == if ok then old(gas) - amount else old(gas)
    {
      ok := gas >= amount;
      if ok { gas := gas - amount; }
    }
  }

  /** The message is taken into a block: it is affordable, pays its own price, and the run could
      transfer its value. */
  predicate Applies(msg: Message, w: World, pool: nat) {
    && Affordable(msg, w, pool) && 0 <= Intrinsic(msg) <= Min(msg.gas, MAX_UINT64)
    && Run(msg, w).error != InsufficientBalance
  }

  class StateTransition {
    const gp: GasPool
    const msg: Message
    var gas: nat
    var initialGas: nat
    var world: World
    var refund: nat

    constructor (gp: GasPool, msg: Message, world: World)
      ensures this.gp == gp && this.msg == msg && this.world == world && gas == 0 && initialGas == 0
    {
      this.gp, this.msg, this.world, gas, initialGas, refund := gp, msg, world, 0, 0, 0;
    }

    method UseGas(amount: nat) returns (ok: bool)
      modifies `gas
      ensures ok == (amount <= old(gas)) && gas == if ok then old(gas) - amount else old(gas)
    {
      ok := gas >= amount;
      if ok { gas := gas - amount; }
    }

    method BuyGas() returns (err: Option<Error>)
      requires gas == 0
      modifies `gas, `initialGas, `world, gp
      ensures err.None? <==> msg.gas * msg.price <= BalanceOf(old(world).balances, msg.from) && msg.gas <= old(gp.gas)
      ensures err.None? ==> gas == initialGas == msg.gas && gp.gas == old(gp.gas) - msg.gas
      ensures err.None? ==> world == old(world).(balances := Credit(old(world).balances, msg.from, -(msg.gas * msg.price)))
      ensures err.Some? ==> world == old(world) && gp.gas == old(gp.gas)
      ensures err == Some(NoFundsForGas) <==> BalanceOf(old(world).balances, msg.from) < msg.gas * msg.price
      ensures err.Some? ==> err.value in {NoFundsForGas, GasLimitReached}
    {
      var mgval := msg.gas * msg.price;
      if BalanceOf(world.balances, msg.from) < mgval { return Some(NoFundsForGas); }
      var ok := gp.SubGas(msg.gas);
      if !ok { return Some(GasLimitReached); }
      gas := gas + msg.gas;
      initialGas := msg.gas;
      world := world.(balances := Credit(world.balances, msg.from, -mgval));
      return None;
    }

    method PreCheck() returns (err: Option<Error>)
      requires gas == 0
      modifies `gas, `initialGas, `world, gp
      ensures err.None? <==> Affordable(msg, old(world), old(gp.gas))
      ensures err == Some(NonceTooHigh) <==> msg.checkNonce && NonceOf(old(world), msg.from) < msg.nonce
      ensures err == Some(NonceTooLow) <==> msg.checkNonce && NonceOf(old(world), msg.from) > msg.nonce
      ensures err == Some(NoFundsForGas) <==>
                NonceOk(msg, old(world)) && BalanceOf(old(world).balances, msg.from) < msg.gas * msg.price
      ensures err.Some? ==> err.value in {NonceTooHigh, NonceTooLow, NoFundsForGas, GasLimitReached}
      ensures err.None? ==> gas == initialGas == msg.gas && gp.gas == old(gp.gas) - msg.gas
      ensures err.None? ==> world == old(world).(balances := Credit(old(world).balances, msg.from, -(msg.gas * msg.price)))
      ensures err.Some? ==> world == old(world) && gp.gas == old(gp.gas)
    {
      if msg.checkNonce {
        var nonce := NonceOf(world, msg.from);
        if nonce < msg.nonce { return Some(NonceTooHigh); }
        if nonce > msg.nonce { return Some(NonceTooLow); }
      }
      err := BuyGas();
    }

    function GasUsed(): int
      reads this
    {
      initialGas - gas
    }

    /** refundGas: at most half of the used gas, and the rest of it goes back to the pool. */
    method RefundGas()
      requires gas <= initialGas && gp.gas + initialGas <= MAX_UINT64
      modifies `gas, `world, gp
      ensures GasUsed() == old(GasUsed()) - Min(old(GasUsed()) / 2, refund) && gas <= initialGas
      ensures world == old(world).(balances := Credit(old(world).balances, msg.from, gas * msg.price))
      ensures gp.gas == old(gp.gas) + gas
    {
      var back := GasUsed() / 2;
      if back > refund { back := refund; }
      gas := gas + back;
      world := world.(balances := Credit(world.balances, msg.from, gas * msg.price));
      gp.AddGas(gas);
    }

    /** The gas is bought and the intrinsic gas is taken from it. */
    method PayUpFront() returns (err: Option<Error>)
      requires gas == 0 && |msg.data| <= MAX_UINT64
      modifies `gas, `initialGas, `world, gp
      ensures err.None? <==> Affordable(msg, old(world), old(gp.gas)) && 0 <= Intrinsic(msg) <= Min(msg.gas, MAX_UINT64)
      ensures err.None? ==> gas == msg.gas - Intrinsic(msg) && initialGas == msg.gas && gp.gas == old(gp.gas) - msg.gas
      ensures err.None? ==> world == old(world).(balances := Paid(msg, old(world)).balances)
      ensures err.Some? ==> (Affordable(msg, old(world), old(gp.gas)) <==> err.value == OutOfGas) && err.value != NoFunds
      ensures !Affordable(msg, old(world), old(gp.gas)) ==> world == old(world) && gp.gas == old(gp.gas)
    {
      IntrinsicNatural(msg);
      err := PreCheck();
      if err.Some? { return; }
      var intrinsic := IntrinsicGas(msg.data, msg.creation, msg.homestead);
      if intrinsic.None? { return Some(OutOfGas); }
      var ok := UseGas(intrinsic.value);
      if !ok { return Some(OutOfGas); }
    }

    /** The EVM runs; then the gas that is left goes back and the coinbase is paid. */
    method Execute(coinbase: Addr, ghost before: World) returns (used: nat, failed: bool, err: Option<Error>)
      requires 0 <= Intrinsic(msg) <= msg.gas && gas == msg.gas - Intrinsic(msg) && initialGas == msg.gas && Lawful(msg.run)
      requires world == before.(balances := Paid(msg, before).balances) && gp.gas + initialGas <= MAX_UINT64
      modifies `gas, `world, `refund, gp
      ensures err == if Run(msg, before).error == InsufficientBalance then Some(NoFunds) else None
      ensures failed <==> err.None? && Run(msg, before).error != NoError
      ensures err.None? ==> used == Used(msg, before) && world == Settled(msg, before, coinbase)
      ensures err.None? ==> gp.gas + used == old(gp.gas) + msg.gas
    {
      if !msg.creation {
        world := world.(nonces := world.nonces[msg.from := NonceOf(world, msg.from) + 1]);
      }
      assert world == Paid(msg, before);
      var out := msg.run(world, gas);
      world, gas, refund := out.world, out.gas, out.refund;
      if out.error == InsufficientBalance { return 0, false, Some(NoFunds); }
      RefundGas();
      world := world.(balances := Credit(world.balances, coinbase, GasUsed() * msg.price));
      return GasUsed(), out.error != NoError, None;
    }

    /** TransitionDb. A message that cannot pay leaves everything as it was; one that succeeds
        settles the world, and the pool has lost exactly the gas it used. */
    method TransitionDb(coinbase: Addr) returns (used: nat, failed: bool, err: Option<Error>)
      requires gas == 0 && gp.gas <= MAX_UINT64 && |msg.data| <= MAX_UINT64 && Lawful(msg.run)
      modifies this, gp
      ensures err.None? <==> Applies(msg, old(world), old(gp.gas))
      ensures err.None? ==> failed == (Run(msg, old(world)).error != NoError)
      ensures err.None? ==> used == Used(msg, old(world)) && world == Settled(msg, old(world), coinbase)
      ensures err.None? ==> gp.gas + used == old(gp.gas)
      ensures !Affordable(msg, old(world), old(gp.gas)) ==> world == old(world) && gp.gas == old(gp.gas)
      ensures Affordable(msg, old(world), old(gp.gas)) ==>
                (err == Some(OutOfGas) <==> Intrinsic(msg) > Min(msg.gas, MAX_UINT64))
      ensures err.Some? ==> !failed && (Affordable(msg, old(world), old(gp.gas)) <==> err.value in {OutOfGas, NoFunds})
    {
      IntrinsicNatural(msg);
      err := PayUpFront();
      if err.Some? { return 0, false, err; }
      used, failed, err := Execute(coinbase, old(world));
    }
  }

  // ----- A block -----

  datatype Receipt = Receipt(failed: bool, cumulativeGas: nat, gasUsed: nat)

  /** The gas of the first `n` transactions. */
  function GasUpTo(receipts: seq<Receipt>, n: nat): nat
    requires n <= |receipts|
  {
    if n == 0 then 0 else GasUpTo(receipts, n - 1) + receipts[n - 1].gasUsed
  }

  lemma {:induction false} GasUpToPrefix(receipts: seq<Receipt>, more: seq<Receipt>, n: nat)
    requires n <= |receipts|
    ensures GasUpTo(receipts + more, n) == GasUpTo(receipts, n)
  {
    if n > 0 { GasUpToPrefix(receipts, more, n - 1); }
  }

  /** Each receipt's cumulative gas is the sum of the gas so far. */
  ghost predicate Cumulative(receipts: seq<Receipt>) {
    forall j :: 0 <= j < |receipts| ==> receipts[j].cumulativeGas == GasUpTo(receipts, j + 1)
  }

  lemma CumulativeGrows(receipts: seq<Receipt>, r: Receipt)
    requires Cumulative(receipts) && r.cumulativeGas == GasUpTo(receipts, |receipts|) + r.gasUsed
    ensures Cumulative(receipts + [r]) && GasUpTo(receipts + [r], |receipts| + 1) == r.cumulativeGas
  {
    var all := receipts + [r];
    GasUpToPrefix(receipts, [r], |receipts|);
    forall j | 0 <= j < |all| ensures all[j].cumulativeGas == GasUpTo(all, j + 1) {
      if j < |receipts| { GasUpToPrefix(receipts, [r], j + 1); }
    }
  }

  /** The world after a list of messages, if all of them apply. */
  ghost function After(msgs: seq<Message>, w: World, coinbase: Addr): World {
    if msgs == [] then w
    else
      var before := After(msgs[..|msgs| - 1], w, coinbase);
      var msg := msgs[|msgs| - 1];
      if 0 <= Intrinsic(msg) <= msg.gas then Settled(msg, before, coinbase) else before
  }

  /** No list of applied messages changes the supply. */
  lemma {:induction false} BlockConserves(msgs: seq<Message>, w: World, coinbase: Addr)
    requires forall m :: m in msgs ==> Lawful(m.run)
    ensures Supply(After(msgs, w, coinbase).balances) == Supply(w.balances)
  {
    if msgs != [] {
      var msg := msgs[|msgs| - 1];
      assert msg in msgs;
      var before := After(msgs[..|msgs| - 1], w, coinbase);
      BlockConserves(msgs[..|msgs| - 1], w, coinbase);
      if 0 <= Intrinsic(msg) <= msg.gas { Conserved(msg, before, coinbase); }
    }
  }

  /** ApplyTransaction: the receipt carries the transaction's gas and the running total. */
  method ApplyTransaction(msg: Message, gp: GasPool, world: World, coinbase: Addr, usedGas: nat)
    returns (world': World, usedGas': nat, receipt: Receipt, err: Option<Error>)
    requires gp.gas + usedGas <= MAX_UINT64 && |msg.data| <= MAX_UINT64 && Lawful(msg.run)
    modifies gp
    ensures err.None? <==> Applies(msg, world, old(gp.gas))
    ensures err.None? ==> world' == Settled(msg, world, coinbase)
    ensures err.None? ==> (receipt.failed <==> Run(msg, world).error != NoError)
    ensures err.None? ==> receipt.gasUsed == Used(msg, world) && receipt.cumulativeGas == usedGas' == usedGas + receipt.gasUsed
    ensures err.None? ==> gp.gas + usedGas' == old(gp.gas) + usedGas
  {
    IntrinsicNatural(msg);
    var st := new StateTransition(gp, msg, world);
    var gas, failed;
    gas, failed, err := st.TransitionDb(coinbase);
    world', usedGas', receipt := st.world, usedGas, Receipt(failed, 0, 0);
    if err.None? {
      usedGas' := usedGas + gas;
      receipt := Receipt(failed, usedGas', gas);
    }
  }

  /** The receipt of message `j` holds the gas that message used in the world it met, and whether
      its run failed there. */
  ghost predicate AsUsed(msgs: seq<Message>, w: World, coinbase: Addr, j: nat, r: Receipt)
    requires j < |msgs|
  {
    && 0 <= Intrinsic(msgs[j]) <= msgs[j].gas
    && r.gasUsed == Used(msgs[j], After(msgs[..j], w, coinbase))
    && (r.failed <==> Run(msgs[j], After(msgs[..j], w, coinbase)).error != NoError)
  }

  /** The state of the processing loop after `i` messages. */
  ghost predicate Processed(msgs: seq<Message>, w: World, coinbase: Addr, i: nat, world: World,
                            receipts: seq<Receipt>) {
    && i <= |msgs| && |receipts| == i && Cumulative(receipts)
    && world == After(msgs[..i], w, coinbase)
    && forall j :: 0 <= j < i ==> AsUsed(msgs, w, coinbase, j, receipts[j])
  }

  lemma ProcessedStep(msgs: seq<Message>, w: World, coinbase: Addr, i: nat, world: World,
                      receipts: seq<Receipt>, receipt: Receipt)
    requires i < |msgs| && Processed(msgs, w, coinbase, i, world, receipts)
    requires 0 <= Intrinsic(msgs[i]) <= msgs[i].gas && receipt.gasUsed == Used(msgs[i], world)
    requires receipt.failed <==> Run(msgs[i], world).error != NoError
    requires receipt.cumulativeGas == GasUpTo(receipts, i) + receipt.gasUsed
    ensures Processed(msgs, w, coinbase, i + 1, Settled(msgs[i], world, coinbase), receipts + [receipt])
    ensures GasUpTo(receipts + [receipt], i + 1) == receipt.cumulativeGas
  {
    CumulativeGrows(receipts, receipt);
    AfterStep(msgs, w, coinbase, i);
    assert AsUsed(msgs, w, coinbase, i, receipt);
  }

  lemma AfterStep(msgs: seq<Message>, w: World, coinbase: Addr, i: nat)
    requires i < |msgs| && 0 <= Intrinsic(msgs[i]) <= msgs[i].gas
    ensures After(msgs[..i + 1], w, coinbase) == Settled(msgs[i], After(msgs[..i], w, coinbase), coinbase)
  {
    assert msgs[..i + 1][..i] == msgs[..i];
  }

  /** The gas of a list of messages, if all of them apply. */
  ghost function Spent(msgs: seq<Message>, w: World, coinbase: Addr): int {
    if msgs == [] then 0
    else
      var front, msg := msgs[..|msgs| - 1], msgs[|msgs| - 1];
      Spent(front, w, coinbase)
      + if 0 <= Intrinsic(msg) <= msg.gas then Used(msg, After(front, w, coinbase)) else 0
  }

  /** Message `j` applies in the world and with the gas that those before it leave. */
  ghost predicate AppliesAt(msgs: seq<Message>, w: World, coinbase: Addr, limit: nat, j: nat)
    requires j < |msgs|
  {
    && Spent(msgs[..j], w, coinbase) <= limit
    && Applies(msgs[j], After(msgs[..j], w, coinbase), limit - Spent(msgs[..j], w, coinbase))
  }

  /** The first `i` messages apply and use this gas. */
  ghost predicate Charged(msgs: seq<Message>, w: World, coinbase: Addr, limit: nat, i: nat, usedGas: nat) {
    && i <= |msgs| && usedGas == Spent(msgs[..i], w, coinbase) <= limit
    && forall j :: 0 <= j < i ==> AppliesAt(msgs, w, coinbase, limit, j)
  }

  lemma ChargedStep(msgs: seq<Message>, w: World, coinbase: Addr, limit: nat, i: nat, usedGas: nat, world: World)
    requires i < |msgs| && Charged(msgs, w, coinbase, limit, i, usedGas) && world == After(msgs[..i], w, coinbase)
    ensures AppliesAt(msgs, w, coinbase, limit, i) <==> Applies(msgs[i], world, limit - usedGas)
    ensures Applies(msgs[i], world, limit - usedGas) && 0 <= usedGas + Used(msgs[i], world) <= limit ==>
              Charged(msgs, w, coinbase, limit, i + 1, usedGas + Used(msgs[i], world))
  {
    assert msgs[..i + 1][..i] == msgs[..i];
  }

  // ----- Nonces -----

  /** The run lowers no nonce, and a creation that could transfer its value raises its sender's. */
  ghost predicate Counts(msg: Message) {
    forall w: World, g: nat ::
      && (forall a :: NonceOf(msg.run(w, g).world, a) >= NonceOf(w, a))
      && (msg.creation && msg.run(w, g).error != InsufficientBalance ==>
            NonceOf(msg.run(w, g).world, msg.from) > NonceOf(w, msg.from))
  }

  /** An applied message raises its sender's nonce and lowers none. */
  lemma RaisesNonce(msg: Message, w: World, coinbase: Addr, a: Addr)
    requires 0 <= Intrinsic(msg) <= msg.gas && Counts(msg) && Run(msg, w).error != InsufficientBalance
    ensures NonceOf(Settled(msg, w, coinbase), a) >= NonceOf(w, a) + if a == msg.from then 1 else 0
  {
    var paid, g := Paid(msg, w), msg.gas - Intrinsic(msg);
    assert NonceOf(msg.run(paid, g).world, a) >= NonceOf(paid, a);
  }

  lemma {:induction false} NoncesRise(msgs: seq<Message>, w: World, coinbase: Addr, limit: nat, i: nat, j: nat)
    requires i < j <= |msgs| && forall m :: m in msgs ==> Counts(m)
    requires forall k :: i <= k < j ==> AppliesAt(msgs, w, coinbase, limit, k)
    ensures forall a :: NonceOf(After(msgs[..j], w, coinbase), a) >=
                          NonceOf(After(msgs[..i], w, coinbase), a) + if a == msgs[i].from then 1 else 0
    decreases j
  {
    var before := After(msgs[..j - 1], w, coinbase);
    assert msgs[j - 1] in msgs && AppliesAt(msgs, w, coinbase, limit, j - 1);
    AfterStep(msgs, w, coinbase, j - 1);
    if j - 1 > i { NoncesRise(msgs, w, coinbase, limit, i, j - 1); }
    forall a ensures NonceOf(Settled(msgs[j - 1], before, coinbase), a) >=
                       NonceOf(before, a) + if a == msgs[j - 1].from then 1 else 0 {
      RaisesNonce(msgs[j - 1], before, coinbase, a);
    }
  }

  /** In a block whose messages all apply, those of one sender have increasing nonces: none is
      applied twice. */
  lemma NoReplay(msgs: seq<Message>, w: World, coinbase: Addr, limit: nat, i: nat, j: nat)
    requires i < j < |msgs| && (forall m :: m in msgs ==> Counts(m))
    requires forall k :: 0 <= k < |msgs| ==> AppliesAt(msgs, w, coinbase, limit, k)
    requires msgs[i].from == msgs[j].from && msgs[i].checkNonce && msgs[j].checkNonce
    ensures msgs[i].nonce < msgs[j].nonce
  {
    NoncesRise(msgs, w, coinbase, limit, i, j);
    assert AppliesAt(msgs, w, coinbase, limit, i) && AppliesAt(msgs, w, coinbase, limit, j);
  }

  /** Process: it succeeds exactly if every message applies in turn. After every transaction, the
      gas left in the pool and the gas used make up the block's limit, and the supply is what it
      was. */
  method Process(msgs: seq<Message>, world0: World, coinbase: Addr, limit: nat)
    returns (world: World, receipts: seq<Receipt>, usedGas: nat, left: nat, err: Option<Error>)
    requires limit <= MAX_UINT64 && forall m :: m in msgs ==> |m.data| <= MAX_UINT64 && Lawful(m.run)
    ensures err.None? <==> forall j :: 0 <= j < |msgs| ==> AppliesAt(msgs, world0, coinbase, limit, j)
    ensures err.None? ==> Processed(msgs, world0, coinbase, |msgs|, world, receipts)
    ensures err.None? ==> usedGas == GasUpTo(receipts, |receipts|) && left + usedGas == limit
    ensures err.None? ==> Supply(world.balances) == Supply(world0.balances)
  {
    var gp := new GasPool(limit);
    world, receipts, usedGas, err := world0, [], 0, None;
    for i := 0 to |msgs|
      invariant Processed(msgs, world0, coinbase, i, world, receipts) && err.None?
      invariant gp.gas + usedGas == limit && usedGas == GasUpTo(receipts, i) && fresh(gp)
      invariant Charged(msgs, world0, coinbase, limit, i, usedGas)
    {
      var receipt;
      assert msgs[i] in msgs;
      ghost var before := world;
      ChargedStep(msgs, world0, coinbase, limit, i, usedGas, world);
      world, usedGas, receipt, err := ApplyTransaction(msgs[i], gp, world, coinbase, usedGas);
      if err.Some? { return world0, [], 0, 0, err; }
      ProcessedStep(msgs, world0, coinbase, i, before, receipts, receipt);
      receipts := receipts + [receipt];
    }
    left := gp.gas;
    assert msgs[..|msgs|] == msgs;
    BlockConserves(msgs, world0, coinbase);
  }

  // ----- Receipts -----

  /** Subtraction on 64-bit words. */
  function Sub64(a: nat, b: nat): nat { (a - b) % (MAX_UINT64 + 1) }

  /** A transaction's gas, derived from the cumulative values alone. */
  function Derived(s: seq<Receipt>, j: nat): nat
    requires j < |s|
  {
    if j == 0 then s[0].cumulativeGas else Sub64(s[j].cumulativeGas, s[j - 1].cumulativeGas)
  }

  /** In a block whose gas fits 64 bits, it is the gas the transaction used. */
  lemma DerivedIsUsed(s: seq<Receipt>, j: nat)
    requires Cumulative(s) && GasUpTo(s, |s|) <= MAX_UINT64 && j < |s|
    ensures Derived(s, j) == s[j].gasUsed
  {
    GasMonotone(s, j + 1, |s|);
    assert GasUpTo(s, j + 1) == GasUpTo(s, j) + s[j].gasUsed;
    if j == 0 { assert GasUpTo(s, 0) == 0; }
  }

  /** SetReceiptsData, the gas part. */
  method SetReceiptsData(transactions: nat, a: array<Receipt>) returns (ok: bool)
    modifies a
    ensures ok == (transactions == a.Length) && (!ok ==> a[..] == old(a[..]))
    ensures ok ==> forall j :: 0 <= j < a.Length ==> a[j] == old(a[j]).(gasUsed := Derived(old(a[..]), j))
  {
    ok := transactions == a.Length;
    if !ok { return; }
    for j := 0 to a.Length
      invariant forall i :: 0 <= i < j ==> a[i] == old(a[i]).(gasUsed := Derived(old(a[..]), i))
      invariant forall i :: j <= i < a.Length ==> a[i] == old(a[i])
    {
      if j == 0 {
        a[j] := a[j].(gasUsed := a[j].cumulativeGas);
      } else {
        a[j] := a[j].(gasUsed := Sub64(a[j].cumulativeGas, a[j - 1].cumulativeGas));
      }
    }
  }

  lemma {:induction false} GasMonotone(receipts: seq<Receipt>, m: nat, n: nat)
    requires m <= n <= |receipts|
    ensures GasUpTo(receipts, m) <= GasUpTo(receipts, n)
    decreases n
  {
    if m < n { GasMonotone(receipts, m, n - 1); }
  }
}
