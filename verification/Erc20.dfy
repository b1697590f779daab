/**
 ERC-20 balance overrides: the token helpers of `HybridDB` and the token transfer of `EvmExecutor`
 (apps/mirage-rs/src/fork.rs), for a token whose upstream storage is all zero.
 */
module Erc20 {
  import opened Prelude
  import opened MapSum
  import opened ForkTypes

  const TOTAL_SUPPLY_SLOT: Word := 1

  type Fetch<T> = Result<T, string>

  /** Everything the helpers read that is not the token's own dirty entry. */
  datatype Env = Env(
    mappingSlot: (Address, Word) -> Word,
    knownSlot: Option<Word>,
    listed: bool,
    call: Address -> Fetch<Word>)
  {
    /** keccak is injective and never hits the supply slot; upstream knows no balances. */
    ghost predicate Ideal() {
      && (forall o: Address, s: Word, o': Address, s': Word ::
         mappingSlot(o, s) == mappingSlot(o', s') ==> o == o' && s == s')
      && (forall o: Address, s: Word :: mappingSlot(o, s) != TOTAL_SUPPLY_SLOT)
      && (forall o: Address :: call(o).Ok? ==> call(o).value == 0)
    }
  }

  /** A storage read of the token: the override, or the zero upstream holds. */
  function Slot(t: DirtyAccount, s: Word): Word { if s in t.storage then t.storage[s] else 0 }

  /** The first of the candidate slots below 8 whose mapping entry for `owner` is not zero. */
  function Probe(env: Env, t: DirtyAccount, owner: Address, i: nat): Option<Word>
    decreases 8 - i
  {
    if i >= 8 then None
    else if Slot(t, env.mappingSlot(owner, i)) != 0 then Some(i)
    else Probe(env, t, owner, i + 1)
  }

  function BalanceSlot(env: Env, t: DirtyAccount, owner: Address): (DirtyAccount, Option<Word>) {
    if t.erc20BalanceSlot.Some? then (t, t.erc20BalanceSlot) else
    var found := if env.knownSlot.Some? then env.knownSlot else Probe(env, t, owner, 0);
    (t.(erc20BalanceSlot := found), found)
  }

  function BalanceOf(env: Env, t: DirtyAccount, owner: Address): (DirtyAccount, Fetch<Word>) {
    if owner in t.erc20Balances then (t, Ok(t.erc20Balances[owner])) else
    var (t', slot) := BalanceSlot(env, t, owner);
    if slot.Some? then (t', Ok(Slot(t', env.mappingSlot(owner, slot.value))))
    else (t', if env.listed then env.call(owner) else Err("slot detection failed"))
  }

  function OrZero(f: Fetch<Word>): Word { if f.Ok? then f.value else 0 }

  function SetBalance(env: Env, t: DirtyAccount, owner: Address, balance: Word): DirtyAccount {
    var (t1, previous) := BalanceOf(env, t, owner);
    var (t2, found) := BalanceSlot(env, t1, owner);
    var slot := if found.Some? then found.value else 0;
    var t3 := t2.(storage := t2.storage[env.mappingSlot(owner, slot) := balance]);
    var total := Slot(t3, TOTAL_SUPPLY_SLOT);
    var next := if balance >= OrZero(previous) then SatAdd(total, balance - OrZero(previous))
                else SatSub(total, OrZero(previous) - balance);
    t3.(storage := t3.storage[TOTAL_SUPPLY_SLOT := next],
        erc20BalanceSlot := Some(slot),
        erc20Balances := t3.erc20Balances[owner := balance])
  }

  /** The token side of a transfer; `Err` leaves only what the reads memoised. */
  function Transfer(env: Env, t: DirtyAccount, from: Address, to: Address, amount: Word, strict: bool)
    : (DirtyAccount, Fetch<()>)
  {
    var (t1, sender) := BalanceOf(env, t, from);
    if sender.Err? then (t1, Err(sender.error))
    else if strict && sender.value < amount then (t1, Err("insufficient token balance"))
    else
      var (t2, recipient) := BalanceOf(env, t1, to);
      if recipient.Err? then (t2, Err(recipient.error))
      else
        var t3 := SetBalance(env, t2, from, SatSub(sender.value, amount));
        (SetBalance(env, t3, to, SatAdd(recipient.value, amount)), Ok(()))
  }

  class Token {
    const env: Env
    var account: DirtyAccount

    constructor (env: Env)
      ensures account == NO_OVERRIDES && this.env == env
    {
      this.env := env;
      account := NO_OVERRIDES;
    }

    method FindBalanceSlot(owner: Address) returns (slot: Option<Word>)
      modifies this
      ensures (account, slot) == BalanceSlot(env, old(account), owner)
    {
      if account.erc20BalanceSlot.Some? {
        return account.erc20BalanceSlot;
      }
      if env.knownSlot.Some? {
        account := account.(erc20BalanceSlot := env.knownSlot);
        return env.knownSlot;
      }
      for i := 0 to 8
        invariant account == old(account) && Probe(env, account, owner, 0) == Probe(env, account, owner, i)
      {
        if Slot(account, env.mappingSlot(owner, i)) != 0 {
          account := account.(erc20BalanceSlot := Some(i));
          return Some(i);
        }
      }
      return None;
    }

    method GetBalance(owner: Address) returns (r: Fetch<Word>)
      modifies this
      ensures (account, r) == BalanceOf(env, old(account), owner)
    {
      if owner in account.erc20Balances {
        return Ok(account.erc20Balances[owner]);
      }
      var slot := FindBalanceSlot(owner);
      if slot.Some? {
        return Ok(Slot(account, env.mappingSlot(owner, slot.value)));
      }
      if !env.listed {
        return Err("slot detection failed");
      }
      return env.call(owner);
    }

    method PutBalance(owner: Address, balance: Word)
      modifies this
      ensures account == SetBalance(env, old(account), owner, balance)
    {
      var read := GetBalance(owner);
      var previous := OrZero(read);
      var found := FindBalanceSlot(owner);
      var slot := if found.Some? then found.value else 0;
      account := account.(storage := account.storage[env.mappingSlot(owner, slot) := balance]);
      var total := Slot(account, TOTAL_SUPPLY_SLOT);
      var next := if balance >= previous then SatAdd(total, balance - previous) else SatSub(total, previous - balance);
      account := account.(storage := account.storage[TOTAL_SUPPLY_SLOT := next]);
      account := account.(erc20BalanceSlot := Some(slot));
      account := account.(erc20Balances := account.erc20Balances[owner := balance]);
    }

    method DoTransfer(from: Address, to: Address, amount: Word, strict: bool) returns (r: Fetch<()>)
      modifies this
      ensures (account, r) == Transfer(env, old(account), from, to, amount, strict)
    {
      var sender := GetBalance(from);
      if sender.Err? {
        return Err(sender.error);
      }
      if strict && sender.value < amount {
        return Err("insufficient token balance");
      }
      var recipient := GetBalance(to);
      if recipient.Err? {
        return Err(recipient.error);
      }
      PutBalance(from, SatSub(sender.value, amount));
      PutBalance(to, SatAdd(recipient.value, amount));
      return Ok(());
    }
  }

  // ---- The supply slot tracks the balances ----

  ghost function Supply(t: DirtyAccount): nat { Sum(t.erc20Balances) }

  /** The balance the token reports for an owner, tracked or not. */
  function Held(t: DirtyAccount, owner: Address): Word {
    if owner in t.erc20Balances then t.erc20Balances[owner] else 0
  }

  /**
   Slot 1 is the sum of the tracked balances, and every balance-mapping slot holds exactly the tracked
   balance of its owner.
   */
  ghost predicate Coherent(env: Env, t: DirtyAccount) {
    && Slot(t, TOTAL_SUPPLY_SLOT) == Supply(t)
    && (t.erc20Balances != map[] ==> t.erc20BalanceSlot.Some?)
    && (forall o: Address, s: Word :: Slot(t, env.mappingSlot(o, s)) ==
          if o in t.erc20Balances && t.erc20BalanceSlot == Some(s) then t.erc20Balances[o] else 0)
  }

  lemma {:induction false} ProbeFindsNothing(env: Env, t: DirtyAccount, owner: Address, i: nat)
    requires Coherent(env, t) && owner !in t.erc20Balances
    ensures Probe(env, t, owner, i) == None
    decreases 8 - i
  {
    if i < 8 {
      ProbeFindsNothing(env, t, owner, i + 1);
    }
  }

  lemma {:induction false} ProbeIsLeast(env: Env, t: DirtyAccount, owner: Address, i: nat)
    requires i <= 8
    ensures match Probe(env, t, owner, i)
      case Some(slot) => i <= slot < 8 && Slot(t, env.mappingSlot(owner, slot)) != 0
                         && forall j: nat :: i <= j < slot ==> Slot(t, env.mappingSlot(owner, j)) == 0
      case None => forall j: nat :: i <= j < 8 ==> Slot(t, env.mappingSlot(owner, j)) == 0
    decreases 8 - i
  {
    if i < 8 {
      ProbeIsLeast(env, t, owner, i + 1);
    }
  }

  /** On any token: the memoised slot, else the known one, else the least of 0 to 7 with a balance there; memoised. */
  lemma BalanceSlotIs(env: Env, t: DirtyAccount, owner: Address)
    ensures var (t', found) := BalanceSlot(env, t, owner);
            && t' == t.(erc20BalanceSlot := found)
            && (t.erc20BalanceSlot.Some? ==> found == t.erc20BalanceSlot)
            && (t.erc20BalanceSlot.None? && env.knownSlot.Some? ==> found == env.knownSlot)
            && (t.erc20BalanceSlot.None? && env.knownSlot.None? ==>
                  forall slot: Word :: found == Some(slot) <==>
                    slot < 8 && Slot(t, env.mappingSlot(owner, slot)) != 0
                    && forall j: nat :: j < slot ==> Slot(t, env.mappingSlot(owner, j)) == 0)
  {
    ProbeIsLeast(env, t, owner, 0);
  }

  /** Reading changes nothing but the memoised slot, and reads the tracked balance or zero. */
  lemma ReadIsCoherent(env: Env, t: DirtyAccount, owner: Address)
    requires env.Ideal() && Coherent(env, t)
    ensures var (t', r) := BalanceOf(env, t, owner);
            && Coherent(env, t') && t'.erc20Balances == t.erc20Balances && t'.storage == t.storage
            && (t.erc20BalanceSlot.Some? ==> t' == t && r.Ok?)
            && (r.Ok? ==> r.value == Held(t, owner)) && OrZero(r) == Held(t, owner)
  {
    if owner !in t.erc20Balances {
      ProbeFindsNothing(env, t, owner, 0);
    }
  }

  /** What a balance can be read from: its override, a balance slot, or an answer of the listed token. */
  ghost predicate Readable(env: Env, t: DirtyAccount, owner: Address) {
    || owner in t.erc20Balances
    || t.erc20BalanceSlot.Some?
    || env.knownSlot.Some?
    || (env.listed && env.call(owner).Ok?)
  }

  lemma ReadSucceedsIff(env: Env, t: DirtyAccount, owner: Address)
    requires env.Ideal() && Coherent(env, t)
    ensures BalanceOf(env, t, owner).1.Ok? <==> Readable(env, t, owner)
    ensures forall o: Address :: Readable(env, BalanceOf(env, t, owner).0, o) <==> Readable(env, t, o)
  {
    if owner !in t.erc20Balances {
      ProbeFindsNothing(env, t, owner, 0);
    }
  }

  lemma HeldBound(t: DirtyAccount, owner: Address)
    ensures Held(t, owner) <= Supply(t)
  {
    if owner in t.erc20Balances {
      SumRemove(t.erc20Balances, owner);
    }
  }

  /** The memoised slot, else the known one, else slot 0. */
  ghost function SlotInUse(env: Env, t: DirtyAccount): Word {
    if t.erc20BalanceSlot.Some? then t.erc20BalanceSlot.value
    else if env.knownSlot.Some? then env.knownSlot.value
    else 0
  }

  /** Setting one balance keeps the token coherent as long as the supply still fits in a word. */
  lemma SetKeepsCoherent(env: Env, t: DirtyAccount, owner: Address, balance: Word)
    requires env.Ideal() && Coherent(env, t) && Fits(Supply(t) - Held(t, owner) + balance)
    ensures var t' := SetBalance(env, t, owner, balance);
            && Coherent(env, t') && t'.erc20Balances == t.erc20Balances[owner := balance]
            && Supply(t') == Supply(t) - Held(t, owner) + balance
            && t'.erc20BalanceSlot == Some(SlotInUse(env, t))
  {
    ReadIsCoherent(env, t, owner);
    var t1 := BalanceOf(env, t, owner).0;
    if t1.erc20BalanceSlot.None? {
      assert t1.erc20Balances == map[];
      ProbeFindsNothing(env, t1, owner, 0);
    }
    var t2 := BalanceSlot(env, t1, owner).0;
    assert Coherent(env, t2) && t2.erc20Balances == t.erc20Balances && t2.storage == t.storage;
    SumUpdate(t.erc20Balances, owner, balance);
    HeldBound(t, owner);
    WrittenSlots(env, t2, if t2.erc20BalanceSlot.Some? then t2.erc20BalanceSlot.value else 0, owner, balance,
                 SetBalance(env, t, owner, balance));
  }

  /** The two storage writes of `set_erc20_balance`, slot by slot. */
  lemma WrittenSlots(env: Env, t: DirtyAccount, slot: Word, owner: Address, balance: Word, t': DirtyAccount)
    requires env.Ideal() && Coherent(env, t)
    requires t.erc20BalanceSlot.Some? ==> t.erc20BalanceSlot.value == slot
    requires t'.erc20BalanceSlot == Some(slot) && t'.erc20Balances == t.erc20Balances[owner := balance]
    requires TOTAL_SUPPLY_SLOT in t'.storage
    requires t'.storage == t.storage
            [env.mappingSlot(owner, slot) := balance][TOTAL_SUPPLY_SLOT := t'.storage[TOTAL_SUPPLY_SLOT]]
    ensures forall o: Address, s: Word :: Slot(t', env.mappingSlot(o, s)) ==
              if o in t'.erc20Balances && Some(slot) == Some(s) then t'.erc20Balances[o] else 0
  {
    forall o: Address, s: Word
      ensures Slot(t', env.mappingSlot(o, s)) ==
              if o in t'.erc20Balances && slot == s then t'.erc20Balances[o] else 0
    {
      assert env.mappingSlot(o, s) != TOTAL_SUPPLY_SLOT;
      if !(o == owner && s == slot) {
        assert Slot(t', env.mappingSlot(o, s)) == Slot(t, env.mappingSlot(o, s));
      }
    }
  }

  lemma SameHoldings(t: DirtyAccount, t': DirtyAccount)
    requires t'.erc20Balances == t.erc20Balances
    ensures Supply(t') == Supply(t) && forall o: Address :: Held(t', o) == Held(t, o)
  {
  }

  /** What an accepted transfer adds to the supply: all of a self-transfer, and what the sender does not hold. */
  ghost function Minted(t: DirtyAccount, from: Address, to: Address, amount: Word): nat {
    if from == to then amount else amount - Min(amount, Held(t, from))
  }

  /** The two writes of an accepted transfer. */
  lemma TwoWrites(env: Env, t: DirtyAccount, from: Address, to: Address, amount: Word)
    requires env.Ideal() && Coherent(env, t) && Fits(Supply(t) + Minted(t, from, to, amount))
    ensures var t3 := SetBalance(env, t, from, SatSub(Held(t, from), amount));
            var t4 := SetBalance(env, t3, to, SatAdd(Held(t, to), amount));
            && Coherent(env, t4)
            && t4.erc20Balances == t.erc20Balances[from := SatSub(Held(t, from), amount)][to := Held(t, to) + amount]
            && Supply(t4) == Supply(t) + Minted(t, from, to, amount)
  {
    hide Coherent, SetBalance, Supply, Env.Ideal;
    HeldBound(t, from);
    HeldBound(t, to);
    var left := SatSub(Held(t, from), amount);
    SetKeepsCoherent(env, t, from, left);
    var t3 := SetBalance(env, t, from, left);
    assert Held(t3, to) == if to == from then left else Held(t, to);
    HeldBound(t3, to);
    SetKeepsCoherent(env, t3, to, Held(t, to) + amount);
  }

  /**
   A transfer keeps the token coherent unless what it mints overflows. It mints nothing exactly when nothing is
   sent, or the accounts are distinct and the sender can pay; a self-transfer and a non-strict overdraft mint tokens.
   */
  lemma TransferEffect(env: Env, t: DirtyAccount, from: Address, to: Address, amount: Word, strict: bool)
    requires env.Ideal() && Coherent(env, t)
    requires Transfer(env, t, from, to, amount, strict).1.Ok? ==> Fits(Supply(t) + Minted(t, from, to, amount))
    ensures var (t', r) := Transfer(env, t, from, to, amount, strict);
            && Coherent(env, t')
            && (r.Err? ==> t'.erc20Balances == t.erc20Balances && Supply(t') == Supply(t))
            && (r.Ok? ==> Supply(t') == Supply(t) + Minted(t, from, to, amount))
            && (r.Ok? ==> (Supply(t') == Supply(t) <==> amount == 0 || (from != to && amount <= Held(t, from))))
            && var paid := t.erc20Balances[from := SatSub(Held(t, from), amount)];
            && (r.Ok? ==> t'.erc20Balances == paid[to := Held(t, to) + amount])
            && (strict && amount > Held(t, from) ==> r.Err?)
  {
    hide Coherent, SetBalance, BalanceOf, Env.Ideal, Supply, Fits;
    ReadIsCoherent(env, t, from);
    var t1 := BalanceOf(env, t, from).0;
    SameHoldings(t, t1);
    ReadIsCoherent(env, t1, to);
    var t2 := BalanceOf(env, t1, to).0;
    SameHoldings(t, t2);
    if Transfer(env, t, from, to, amount, strict).1.Ok? {
      TwoWrites(env, t2, from, to, amount);
    }
  }

  /**
   A transfer is accepted exactly when both balances can be read and, if balances are strict, the sender can pay. Where
   only the last fails, that is the error.
   */
  lemma AcceptedIff(env: Env, t: DirtyAccount, from: Address, to: Address, amount: Word, strict: bool)
    requires env.Ideal() && Coherent(env, t)
    ensures Transfer(env, t, from, to, amount, strict).1.Ok?
            <==> Readable(env, t, from) && Readable(env, t, to) && (strict ==> amount <= Held(t, from))
    ensures Readable(env, t, from) && strict && amount > Held(t, from) ==>
              Transfer(env, t, from, to, amount, strict).1 == Err("insufficient token balance")
  {
    hide Coherent, SetBalance, BalanceOf, Env.Ideal, Readable;
    ReadIsCoherent(env, t, from);
    ReadSucceedsIff(env, t, from);
    var t1 := BalanceOf(env, t, from).0;
    SameHoldings(t, t1);
    ReadSucceedsIff(env, t1, to);
  }

  /** With a memoised slot a covered strict transfer goes through, and moves just its amount. */
  lemma CoveredTransferMoves(env: Env, t: DirtyAccount, from: Address, to: Address, amount: Word)
    requires env.Ideal() && Coherent(env, t) && Fits(Supply(t))
    requires t.erc20BalanceSlot.Some? && from != to && amount <= Held(t, from)
    ensures var (t', r) := Transfer(env, t, from, to, amount, true);
            && r.Ok? && Held(t', from) == Held(t, from) - amount && Held(t', to) == Held(t, to) + amount
            && (forall o: Address :: o != from && o != to ==> Held(t', o) == Held(t, o))
            && Supply(t') == Supply(t)
  {
    hide Coherent, Env.Ideal, Supply, Transfer;
    AcceptedIff(env, t, from, to, amount, true);
    TransferEffect(env, t, from, to, amount, true);
  }

  // ---- Whole runs ----

  datatype Op = Set(owner: Address, balance: Word) | Send(from: Address, to: Address, amount: Word, strict: bool)

  function Step(env: Env, t: DirtyAccount, op: Op): DirtyAccount {
    match op
    case Set(owner, balance) => SetBalance(env, t, owner, balance)
    case Send(from, to, amount, strict) => Transfer(env, t, from, to, amount, strict).0
  }

  function Run(env: Env, ops: seq<Op>): DirtyAccount {
    if ops == [] then NO_OVERRIDES else Step(env, Run(env, ops[..|ops| - 1]), ops[|ops| - 1])
  }

  /**
   The supply never outgrows a word. A strict transfer needs no such promise, unless it is a covered self-transfer:
   it is refused or mints nothing.
   */
  ghost predicate RunFits(env: Env, ops: seq<Op>) {
    ops == [] ||
    (RunFits(env, ops[..|ops| - 1]) && StepFits(Run(env, ops[..|ops| - 1]), ops[|ops| - 1]))
  }

  ghost predicate StepFits(before: DirtyAccount, op: Op) {
    match op
    case Set(owner, balance) => Fits(Supply(before) - Held(before, owner) + balance)
    case Send(from, to, amount, strict) =>
      (strict && (amount > Held(before, from) || from != to)) || Fits(Supply(before) + Minted(before, from, to, amount))
  }

  lemma StepKeepsCoherent(env: Env, t: DirtyAccount, op: Op)
    requires env.Ideal() && Coherent(env, t) && Fits(Supply(t)) && StepFits(t, op)
    ensures Coherent(env, Step(env, t, op)) && Fits(Supply(Step(env, t, op)))
    ensures op.Send? && op.strict && op.from != op.to ==> Supply(Step(env, t, op)) == Supply(t)
  {
    hide Coherent, SetBalance, Supply, Env.Ideal, BalanceOf;
    match op
    case Set(owner, balance) => SetKeepsCoherent(env, t, owner, balance);
    case Send(from, to, amount, strict) =>
      if strict && amount > Held(t, from) {
        StrictRefusal(env, t, from, to, amount);
      }
      TransferEffect(env, t, from, to, amount, strict);
  }

  lemma StrictRefusal(env: Env, t: DirtyAccount, from: Address, to: Address, amount: Word)
    requires env.Ideal() && Coherent(env, t) && amount > Held(t, from)
    ensures Transfer(env, t, from, to, amount, true).1.Err?
  {
    hide Coherent, SetBalance, BalanceOf, Env.Ideal, Supply;
    ReadIsCoherent(env, t, from);
    var (t1, sender) := BalanceOf(env, t, from);
    assert sender.Ok? ==> sender.value < amount;
  }

  /** Over any run from an all-zero token, slot 1 is the sum of the balances and each mapping slot its balance. */
  lemma {:induction false} RunsAreCoherent(env: Env, ops: seq<Op>)
    requires env.Ideal() && RunFits(env, ops)
    ensures Coherent(env, Run(env, ops)) && Fits(Supply(Run(env, ops)))
  {
    hide Coherent, Step, StepFits, Supply, Env.Ideal;
    if ops == [] {
      EmptyIsCoherent(env);
    } else {
      RunsAreCoherent(env, ops[..|ops| - 1]);
      StepKeepsCoherent(env, Run(env, ops[..|ops| - 1]), ops[|ops| - 1]);
    }
  }

  lemma EmptyIsCoherent(env: Env)
    ensures Coherent(env, NO_OVERRIDES) && Supply(NO_OVERRIDES) == 0
  {
  }

  /** Strict transfers between distinct accounts, of any amounts, conserve the supply over any run. */
  lemma {:induction false} StrictRunsConserve(env: Env, ops: seq<Op>, n: nat)
    requires env.Ideal() && n <= |ops| && RunFits(env, ops[..n])
    requires forall i :: n <= i < |ops| ==> ops[i].Send? && ops[i].strict && ops[i].from != ops[i].to
    ensures RunFits(env, ops) && Supply(Run(env, ops)) == Supply(Run(env, ops[..n]))
  {
    hide Coherent, Step, Supply, Env.Ideal;
    if n < |ops| {
      var front, op := ops[..|ops| - 1], ops[|ops| - 1];
      assert front[..n] == ops[..n];
      StrictRunsConserve(env, front, n);
      RunsAreCoherent(env, front);
      StepKeepsCoherent(env, Run(env, front), op);
    } else {
      assert ops[..n] == ops;
    }
  }
}
