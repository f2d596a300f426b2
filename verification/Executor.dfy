/**
 Executing a block (block-producer/src/executor/block_executor.rs, revm_adapter.rs, transaction.rs): each
 transaction is validated, run by the EVM on the state it can see, and its writes are buffered; rejected
 transactions are skipped, a fatal error rolls the block back. The EVM is any deterministic function.
 */
module Executor {
  import opened Basics
  import opened StateDb
  import WalKeys

  const EMPTY_CODE_HASH: Hash := 0xc5d2460186f7233c927e7db2dcc703c0e500b653ca82273b7bfad8045d85a470
  const TWO_256: nat := TWO_64 * TWO_64 * TWO_64 * TWO_64
  const ONE_GWEI: nat := 1_000_000_000

  /** A transaction with its text fields parsed; `None` where the text does not parse, and a price of `None`
      where it is absent. */
  datatype Tx = Tx(
    hash: Option<string>,
    from: Option<Address>,
    to: Option<Option<Address>>,
    value: Option<nat>,
    data: Option<Code>,
    gas: Option<nat>,
    nonce: Option<nat>,
    price: Option<Option<nat>>,
    chain: Option<nat>)

  datatype Error =
    | Transaction
    | InvalidGas
    | NonceTooLow(expected: nat, got: nat)
    | InsufficientFunds(required: nat, available: nat)
    | Database
    | EvmFailure
    | Other

  predicate IsFatal(e: Error) { e.Database? || e.EvmFailure? }

  datatype Result<T> = Ok(value: T) | Err(error: Error)

  datatype Info = Info(balance: nat, nonce: nat, codeHash: Hash)

  const NO_ACCOUNT := Info(0, 0, EMPTY_CODE_HASH)

  datatype Env = Env(caller: Address, to: Option<Address>, value: nat, data: Code, gas: nat, nonce: nat,
                     price: Option<nat>, chain: Option<nat>)

  /** What the EVM can see. */
  datatype View = View(infos: map<Address, Info>, storage: map<(Address, Word), Word>, codes: map<Hash, Code>, hashes: map<nat, Hash>)

  datatype Slot = Slot(key: Word, value: Word, changed: bool)

  datatype Change = Change(address: Address, destroyed: bool, touched: bool, info: Info, code: Option<Code>, slots: seq<Slot>)

  datatype Verdict = Success | Revert | Halt

  /** `transact`: an error, after looking at some accounts, or a verdict with the accounts it changed. */
  datatype Outcome = Failed(looked: set<Address>) | Done(verdict: Verdict, gas: nat, state: seq<Change>)

  type Evm = (View, Env) -> Outcome

  /** The database and the account cache in front of it. */
  datatype Executor = Executor(db: Db, cache: map<Address, Info>)

  datatype Executed = Executed(gas: nat, success: bool)

  datatype Receipt = Receipt(index: nat, gas: nat, cumulative: nat, success: bool)

  datatype Progress = Progress(ex: Executor, gas: nat, successful: nat, failed: nat, receipts: map<string, Receipt>)

  /** `BlockExecutionResult`. */
  datatype Report = Report(gas: nat, successful: nat, failed: nat, receipts: map<string, Receipt>)

  datatype Block = Running(p: Progress) | Stopped(ex: Executor, error: Error)

  // ----- One transaction -----

  /** The tables as the reads show them; code is not read through the buffer. */
  function Visible(db: Db): Tables {
    match db.buffer
    case None => db.tables
    case Some(b) =>
      Tables((db.tables.accounts - (set a | a in b.deleted)) + b.accounts, db.tables.storage + b.storage,
             db.tables.codes, db.tables.hashes + b.hashes)
  }

  lemma VisibleIsRead(db: Db)
    ensures Sees(db, Visible(db)) && forall h: Hash :: GetCode(db, h) == At(Visible(db).codes, h)
  {
  }

  /** gas limit * gas price + value, in 256 bits. */
  function Cost(tx: Tx): Result<nat> {
    if tx.gas.None? || tx.price == Some(None) || tx.value.None? then Err(Transaction)
    else
      var cost := tx.gas.value * (if tx.price.Some? then tx.price.value.value else ONE_GWEI);
      if cost >= TWO_256 || cost + tx.value.value >= TWO_256 then Err(Transaction) else Ok(cost + tx.value.value)
  }

  function Validate(accounts: map<Address, Account>, tx: Tx): Result<()> {
    if tx.gas.None? then Err(Transaction)
    else if tx.gas.value == 0 then Err(InvalidGas)
    else if tx.from.None? then Err(Transaction)
    else
      var account := At(accounts, tx.from.value);
      if tx.nonce.None? then Err(Transaction)
      else if account.Some? && tx.nonce.value < account.value.nonce
      then Err(NonceTooLow(account.value.nonce, tx.nonce.value))
      else
        match Cost(tx)
        case Err(e) => Err(e)
        case Ok(required) =>
          var available := if account.Some? then account.value.balance else 0;
          if available < required then Err(InsufficientFunds(required, available)) else Ok(())
  }

  /** What makes a transaction with this sender account acceptable: its numbers can be read, its gas is not
      zero, its nonce is not used up, and the account can pay for all its gas and the value, in 256 bits. */
  predicate Payable(tx: Tx, account: Option<Account>) {
    && tx.gas.Some? && tx.nonce.Some? && tx.value.Some? && tx.price != Some(None)
    && tx.gas.value > 0
    && (account.Some? ==> account.value.nonce <= tx.nonce.value)
    && (var price := if tx.price.Some? then tx.price.value.value else ONE_GWEI;
        var required := tx.gas.value * price + tx.value.value;
        required < TWO_256 && required <= if account.Some? then account.value.balance else 0)
  }

  /** Validation accepts exactly the payable transactions, and each of its named refusals says what is wrong. */
  lemma ValidIff(accounts: map<Address, Account>, tx: Tx)
    ensures Validate(accounts, tx).Ok? <==> tx.from.Some? && Payable(tx, At(accounts, tx.from.value))
    ensures Validate(accounts, tx) == Err(InvalidGas) <==> tx.gas == Some(0)
    ensures match Validate(accounts, tx)
            case Err(NonceTooLow(expected, got)) =>
              tx.nonce == Some(got) && tx.from.Some? && tx.from.value in accounts && accounts[tx.from.value].nonce == expected > got
            case Err(InsufficientFunds(required, available)) =>
              && Cost(tx) == Ok(required) && required > available && tx.from.Some?
              && available == if tx.from.value in accounts then accounts[tx.from.value].balance else 0
            case _ => true
  {
  }

  function BuildEnv(tx: Tx): Result<Env> {
    if tx.from.None? then Err(Transaction)
    else if tx.to.None? then Err(Other)
    else if tx.value.None? || tx.data.None? || tx.gas.None? || tx.nonce.None? || tx.price == Some(None) then Err(Transaction)
    else Ok(Env(tx.from.value, tx.to.value, tx.value.value, tx.data.value, tx.gas.value, tx.nonce.value,
                if tx.price.Some? then tx.price.value else None, tx.chain))
  }

  function InfoOf(a: Account): Info { Info(a.balance, a.nonce, a.codeHash) }

  /** Accounts come from the cache first. */
  function ViewOf(v: Tables, cache: map<Address, Info>): View {
    View((map a | a in v.accounts :: InfoOf(v.accounts[a])) + cache, v.storage, v.codes, v.hashes)
  }

  function Basic(view: View, a: Address): Info { Get(view.infos, a, NO_ACCOUNT) }

  function SlotWrites(a: Address, slots: seq<Slot>): seq<Op> {
    if slots == [] then []
    else SlotWrites(a, Front(slots)) + if Last(slots).changed then [SetStorage(a, Last(slots).key, Last(slots).value)] else []
  }

  function ChangeWrites(c: Change): seq<Op> {
    if c.destroyed then [DeleteAccount(c.address)]
    else if c.touched then
      [SetAccount(c.address, Account(c.info.balance, c.info.nonce, c.info.codeHash, 0))]
      + (if c.code.Some? && c.info.codeHash != EMPTY_CODE_HASH && c.code.value != []
         then [SetCode(c.info.codeHash, c.code.value)] else [])
      + SlotWrites(c.address, c.slots)
    else []
  }

  /** The writes of `apply_state_changes`, in order. */
  function StateWrites(state: seq<Change>): seq<Op> {
    if state == [] then [] else StateWrites(Front(state)) + ChangeWrites(Last(state))
  }

  /** Running one transaction: a failing `transact` leaves what it looked at in the cache; otherwise the
      writes are applied and the cache is cleared, a halt included. */
  function ExecuteTx(evm: Evm, ex: Executor, tx: Tx): (Executor, Result<Executed>) {
    match BuildEnv(tx)
    case Err(e) => (ex, Err(e))
    case Ok(env) =>
      var view := ViewOf(Visible(ex.db), ex.cache);
      match evm(view, env)
      case Failed(looked) => (ex.(cache := ex.cache + map a | a in looked :: Basic(view, a)), Err(EvmFailure))
      case Done(verdict, gas, state) =>
        (Executor(Run(ex.db, Dos(StateWrites(state))), map[]),
         if verdict.Halt? then Err(EvmFailure) else Ok(Executed(gas, verdict.Success?)))
  }

  // ----- The block -----

  function KeyOf(tx: Tx, index: nat): string {
    if tx.hash.Some? then tx.hash.value else "tx_" + WalKeys.Decimal(index)
  }

  function StepTx(evm: Evm, p: Progress, index: nat, tx: Tx): Block {
    if Validate(Visible(p.ex.db).accounts, tx).Err? then Running(p.(failed := p.failed + 1))
    else
      var (ex, result) := ExecuteTx(evm, p.ex, tx);
      match result
      case Ok(done) =>
        var gas := (p.gas + done.gas) % TWO_64;
        Running(Progress(ex, gas,
                         if done.success then p.successful + 1 else p.successful,
                         if done.success then p.failed else p.failed + 1,
                         p.receipts[KeyOf(tx, index) := Receipt(index, done.gas, gas, done.success)]))
      case Err(e) =>
        if IsFatal(e) then Stopped(ex, e) else Running(p.(ex := ex, failed := p.failed + 1))
  }

  function Next(evm: Evm, b: Block, index: nat, tx: Tx): Block {
    match b
    case Stopped(_, _) => b
    case Running(p) => StepTx(evm, p, index, tx)
  }

  function RunTxs(evm: Evm, ex: Executor, txs: seq<Tx>): Block {
    if txs == [] then Running(Progress(ex, 0, 0, 0, map[]))
    else Next(evm, RunTxs(evm, ex, Front(txs)), |txs| - 1, Last(txs))
  }

  /** `execute_block`: begin, run, and commit or roll back. */
  function ExecuteBlock(evm: Evm, ex: Executor, txs: seq<Tx>): (Executor, Result<Report>) {
    if ex.db.buffer.Some? then (ex, Err(Database))
    else
      match RunTxs(evm, ex.(db := Exec(ex.db, Begin)), txs)
      case Stopped(e, error) => (e.(db := Exec(e.db, Rollback)), Err(error))
      case Running(p) => (p.ex.(db := Exec(p.ex.db, Commit)), Ok(Report(p.gas, p.successful, p.failed, p.receipts)))
  }

  // ----- Counting and receipts -----

  /** Every transaction of a finished block is counted once, as successful or as failed. */
  lemma {:induction false} AllCounted(evm: Evm, ex: Executor, txs: seq<Tx>)
    ensures var b := RunTxs(evm, ex, txs); b.Running? ==> b.p.successful + b.p.failed == |txs|
  {
    if txs != [] { AllCounted(evm, ex, Front(txs)); }
  }

  /** What came of transaction `i`: `None` when it was skipped or the block had stopped. */
  function OutcomeAt(evm: Evm, ex: Executor, txs: seq<Tx>, i: nat): Option<Executed>
    requires i < |txs|
  {
    OutcomeFrom(evm, RunTxs(evm, ex, txs[..i]), txs[i])
  }

  function OutcomeFrom(evm: Evm, b: Block, tx: Tx): Option<Executed> {
    if b.Stopped? || Validate(Visible(b.p.ex.db).accounts, tx).Err? then None
    else
      match ExecuteTx(evm, b.p.ex, tx).1
      case Ok(done) => Some(done)
      case Err(_) => None
  }

  function GasOf(o: Option<Executed>): nat { if o.Some? then o.value.gas else 0 }

  /** Gas of the executed ones among the first `n` transactions. */
  function GasUpTo(evm: Evm, ex: Executor, txs: seq<Tx>, n: nat): nat
    requires n <= |txs|
  {
    if n == 0 then 0
    else GasUpTo(evm, ex, txs, n - 1) + GasOf(OutcomeAt(evm, ex, txs, n - 1))
  }

  lemma {:induction false} GasOfPrefix(evm: Evm, ex: Executor, txs: seq<Tx>, more: seq<Tx>, n: nat)
    requires n <= |txs|
    ensures GasUpTo(evm, ex, txs + more, n) == GasUpTo(evm, ex, txs, n)
  {
    if n > 0 {
      GasOfPrefix(evm, ex, txs, more, n - 1);
      assert (txs + more)[..n - 1] == txs[..n - 1] && (txs + more)[n - 1] == txs[n - 1];
    }
  }

  lemma NextGas(evm: Evm, b: Block, index: nat, tx: Tx, total: nat)
    requires b.Running? ==> b.p.gas == total % TWO_64
    ensures var n, o := Next(evm, b, index, tx), OutcomeFrom(evm, b, tx);
            n.Running? ==>
              && b.Running? && n.p.gas == (total + GasOf(o)) % TWO_64
              && n.p.receipts == (if o.None? then b.p.receipts
                                  else b.p.receipts[KeyOf(tx, index) := Receipt(index, o.value.gas, n.p.gas, o.value.success)])
  {
  }

  lemma {:induction false} GasIsTheSum(evm: Evm, ex: Executor, txs: seq<Tx>)
    ensures var b := RunTxs(evm, ex, txs); b.Running? ==> b.p.gas == GasUpTo(evm, ex, txs, |txs|) % TWO_64
  {
    if txs != [] {
      var n := |txs| - 1;
      GasIsTheSum(evm, ex, Front(txs));
      assert txs == Front(txs) + [Last(txs)] && txs[..n] == Front(txs);
      GasOfPrefix(evm, ex, Front(txs), [Last(txs)], n);
      NextGas(evm, RunTxs(evm, ex, Front(txs)), n, Last(txs), GasUpTo(evm, ex, Front(txs), n));
    }
  }

  lemma OutcomeOfPrefix(evm: Evm, ex: Executor, txs: seq<Tx>, j: nat)
    requires txs != [] && j < |txs| - 1
    ensures OutcomeAt(evm, ex, Front(txs), j) == OutcomeAt(evm, ex, txs, j)
  {
    assert Front(txs)[..j] == txs[..j];
  }

  /** What the last transaction of a block does to gas and receipts. */
  lemma LastReceipt(evm: Evm, ex: Executor, txs: seq<Tx>)
    requires txs != [] && RunTxs(evm, ex, txs).Running?
    ensures var n, o := |txs| - 1, OutcomeAt(evm, ex, txs, |txs| - 1);
            && RunTxs(evm, ex, Front(txs)).Running?
            && RunTxs(evm, ex, txs).p.receipts
               == (if o.None? then RunTxs(evm, ex, Front(txs)).p.receipts
                   else RunTxs(evm, ex, Front(txs)).p.receipts[
                          KeyOf(txs[n], n) := Receipt(n, o.value.gas, GasUpTo(evm, ex, txs, n + 1) % TWO_64, o.value.success)])
  {
    var n := |txs| - 1;
    GasIsTheSum(evm, ex, Front(txs));
    GasIsTheSum(evm, ex, txs);
    assert txs[..n] == Front(txs);
    NextGas(evm, RunTxs(evm, ex, Front(txs)), n, Last(txs), GasUpTo(evm, ex, Front(txs), n));
  }

  /** No later executed transaction has the key of transaction `i`. */
  ghost predicate KeyIsLast(evm: Evm, ex: Executor, txs: seq<Tx>, i: nat)
    requires i < |txs|
  {
    forall j :: i < j < |txs| && OutcomeAt(evm, ex, txs, j).Some? ==> KeyOf(txs[j], j) != KeyOf(txs[i], i)
  }

  lemma KeyWasLast(evm: Evm, ex: Executor, txs: seq<Tx>, i: nat)
    requires i < |txs| - 1 && KeyIsLast(evm, ex, txs, i)
    ensures KeyIsLast(evm, ex, Front(txs), i)
  {
    forall j | i < j < |txs| - 1 && OutcomeAt(evm, ex, Front(txs), j).Some? ensures KeyOf(Front(txs)[j], j) != KeyOf(Front(txs)[i], i) {
      OutcomeOfPrefix(evm, ex, txs, j);
    }
  }

  /** The receipt of an executed transaction, unless a later one has the same key, carries the gas used by
      the block up to and including it. */
  lemma {:induction false} ReceiptIsPrefixSum(evm: Evm, ex: Executor, txs: seq<Tx>, i: nat)
    requires i < |txs| && RunTxs(evm, ex, txs).Running? && OutcomeAt(evm, ex, txs, i).Some? && KeyIsLast(evm, ex, txs, i)
    ensures var p, done := RunTxs(evm, ex, txs).p, OutcomeAt(evm, ex, txs, i).value;
            && KeyOf(txs[i], i) in p.receipts
            && p.receipts[KeyOf(txs[i], i)] == Receipt(i, done.gas, GasUpTo(evm, ex, txs, i + 1) % TWO_64, done.success)
  {
    LastReceipt(evm, ex, txs);
    if i < |txs| - 1 {
      OutcomeOfPrefix(evm, ex, txs, i);
      KeyWasLast(evm, ex, txs, i);
      ReceiptIsPrefixSum(evm, ex, Front(txs), i);
      assert txs == Front(txs) + [Last(txs)];
      GasOfPrefix(evm, ex, Front(txs), [Last(txs)], i + 1);
    }
  }

  // ----- Skipped transactions are invisible -----

  predicate Rejected(db: Db, tx: Tx) {
    Validate(Visible(db).accounts, tx).Err? || BuildEnv(tx).Err?
  }

  /** The transactions of the block that were not rejected when their turn came. */
  function Kept(evm: Evm, ex: Executor, txs: seq<Tx>): seq<Tx> {
    if txs == [] then []
    else
      var b := RunTxs(evm, ex, Front(txs));
      Kept(evm, ex, Front(txs)) + if b.Running? && Rejected(b.p.ex.db, Last(txs)) then [] else [Last(txs)]
  }

  predicate SameBut(a: Block, b: Block, skipped: int) {
    if a.Running? then
      && b.Running? && a.p.ex == b.p.ex && a.p.gas == b.p.gas && a.p.successful == b.p.successful
      && a.p.failed == b.p.failed + skipped
    else a == b
  }

  lemma RejectedStep(evm: Evm, p: Progress, index: nat, tx: Tx)
    ensures Rejected(p.ex.db, tx) ==> StepTx(evm, p, index, tx) == Running(p.(failed := p.failed + 1))
  {
  }

  lemma KeptStep(evm: Evm, a: Block, b: Block, i: nat, j: nat, tx: Tx, skipped: int)
    requires SameBut(a, b, skipped)
    ensures SameBut(Next(evm, a, i, tx), Next(evm, b, j, tx), skipped)
  {
  }

  lemma {:induction false} KeptRun(evm: Evm, ex: Executor, txs: seq<Tx>)
    ensures SameBut(RunTxs(evm, ex, txs), RunTxs(evm, ex, Kept(evm, ex, txs)), |txs| - |Kept(evm, ex, txs)|)
  {
    if txs != [] {
      KeptRun(evm, ex, Front(txs));
      var kept := Kept(evm, ex, Front(txs));
      var a, b := RunTxs(evm, ex, Front(txs)), RunTxs(evm, ex, kept);
      if a.Running? && Rejected(a.p.ex.db, Last(txs)) {
        RejectedStep(evm, a.p, |txs| - 1, Last(txs));
        assert Kept(evm, ex, txs) == kept;
      } else {
        var all := kept + [Last(txs)];
        assert Kept(evm, ex, txs) == all && Front(all) == kept && Last(all) == Last(txs);
        KeptStep(evm, a, b, |txs| - 1, |kept|, Last(txs), |txs| - 1 - |kept|);
      }
    }
  }

  /** Executing a block and executing it with the rejected transactions taken out leave the same database
      and cache, and report the same error or the same gas and the same number of successes. */
  lemma SkippedInvisible(evm: Evm, ex: Executor, txs: seq<Tx>)
    requires ex.db.buffer.None?
    ensures var kept := Kept(evm, ex.(db := Exec(ex.db, Begin)), txs);
            var (e1, r1) := ExecuteBlock(evm, ex, txs);
            var (e2, r2) := ExecuteBlock(evm, ex, kept);
            && e1 == e2
            && (r1.Err? ==> r2 == r1)
            && (r1.Ok? ==> r2.Ok? && r2.value.gas == r1.value.gas && r2.value.successful == r1.value.successful
                           && r1.value.failed == r2.value.failed + |txs| - |kept|)
  {
    KeptRun(evm, ex.(db := Exec(ex.db, Begin)), txs);
  }

  // ----- Fatal errors -----

  lemma {:induction false} WritesInTransaction(db: Db, written: seq<Op>, ops: seq<Op>)
    requires db.buffer == Some(Collected(written))
    ensures var r := Run(db, Dos(ops)); r.tables == db.tables && r.buffer == Some(Collected(written + ops))
  {
    if ops == [] {
      assert written + [] == written;
    } else {
      WritesInTransaction(db, written, Front(ops));
      assert Front(Dos(ops)) == Dos(Front(ops)) && Last(Dos(ops)) == Do(Last(ops));
      assert Front(written + ops) == written + Front(ops);
    }
  }

  /** Whatever the transactions do, the tables stay untouched until the commit. */
  lemma {:induction false} TablesWait(evm: Evm, ex: Executor, txs: seq<Tx>)
    requires ex.db.buffer == Some(NOTHING)
    ensures var b := RunTxs(evm, ex, txs);
            var db := if b.Running? then b.p.ex.db else b.ex.db;
            db.tables == ex.db.tables && exists w :: db.buffer == Some(Collected(w))
  {
    if txs == [] {
      assert NOTHING == Collected([]);
    } else {
      TablesWait(evm, ex, Front(txs));
      var b := RunTxs(evm, ex, Front(txs));
      if b.Running? {
        var w :| b.p.ex.db.buffer == Some(Collected(w));
        StepWaits(evm, b.p, |txs| - 1, Last(txs), w);
      }
    }
  }

  lemma StepWaits(evm: Evm, p: Progress, index: nat, tx: Tx, written: seq<Op>)
    requires p.ex.db.buffer == Some(Collected(written))
    ensures var b := StepTx(evm, p, index, tx);
            var db := if b.Running? then b.p.ex.db else b.ex.db;
            db.tables == p.ex.db.tables && exists w :: db.buffer == Some(Collected(w))
  {
    var (ex, _) := ExecuteTx(evm, p.ex, tx);
    assert ex.db.tables == p.ex.db.tables && exists w :: ex.db.buffer == Some(Collected(w)) by {
      if BuildEnv(tx).Ok? {
        var o := evm(ViewOf(Visible(p.ex.db), p.ex.cache), BuildEnv(tx).value);
        if o.Done? { WritesInTransaction(p.ex.db, written, StateWrites(o.state)); }
      }
    }
  }

  /** A block that ends in an error leaves the database as it was before, transaction closed. */
  lemma FatalRestores(evm: Evm, ex: Executor, txs: seq<Tx>)
    requires ex.db.buffer.None? && ExecuteBlock(evm, ex, txs).1.Err?
    ensures var after := ExecuteBlock(evm, ex, txs).0;
            after.db == ex.db.(changed := []) && IsFatal(ExecuteBlock(evm, ex, txs).1.error)
  {
    TablesWait(evm, ex.(db := Exec(ex.db, Begin)), txs);
    OnlyFatalStops(evm, ex.(db := Exec(ex.db, Begin)), txs);
  }

  lemma {:induction false} OnlyFatalStops(evm: Evm, ex: Executor, txs: seq<Tx>)
    ensures RunTxs(evm, ex, txs).Stopped? ==> IsFatal(RunTxs(evm, ex, txs).error)
  {
    if txs != [] { OnlyFatalStops(evm, ex, Front(txs)); }
  }

  function SeenBy(ex: Executor, a: Address): Info { Basic(ViewOf(Visible(ex.db), ex.cache), a) }

  /** The account as the tables have it. */
  function Truly(t: Tables, a: Address): Info { Basic(ViewOf(t, map[]), a) }

  lemma CacheOverlay(t: Tables, cache: map<Address, Info>, a: Address)
    ensures Basic(ViewOf(t, cache), a) == if a in cache then cache[a] else Truly(t, a)
  {
  }

  /** A failing `transact` leaves in the cache what was there, and what it looked at as it saw it. */
  lemma LookedStaysCached(evm: Evm, p: Progress, index: nat, tx: Tx, looked: set<Address>)
    requires !Rejected(p.ex.db, tx)
    requires evm(ViewOf(Visible(p.ex.db), p.ex.cache), BuildEnv(tx).value) == Failed(looked)
    ensures var b := StepTx(evm, p, index, tx);
            && b.Stopped? && b.error == EvmFailure && b.ex.cache.Keys == p.ex.cache.Keys + looked
            && forall a :: a in b.ex.cache ==> b.ex.cache[a] == SeenBy(p.ex, a)
  {
    forall a: Address ensures a in p.ex.cache ==> SeenBy(p.ex, a) == p.ex.cache[a] {
      CacheOverlay(Visible(p.ex.db), p.ex.cache, a);
    }
  }

  /** The account cache is not rolled back. After a block whose last transaction makes `transact` fail, the
      executor sees the accounts as the database has them exactly when all those cached then, or looked at by
      that transaction, were seen so. */
  lemma CacheFreshIff(evm: Evm, ex: Executor, txs: seq<Tx>, p: Progress, looked: set<Address>)
    requires ex.db.buffer.None? && txs != []
    requires RunTxs(evm, ex.(db := Exec(ex.db, Begin)), Front(txs)) == Running(p)
    requires !Rejected(p.ex.db, Last(txs))
    requires evm(ViewOf(Visible(p.ex.db), p.ex.cache), BuildEnv(Last(txs)).value) == Failed(looked)
    ensures var after := ExecuteBlock(evm, ex, txs).0;
            && after.db == ex.db.(changed := [])
            && ((forall a: Address :: SeenBy(after, a) == Truly(ex.db.tables, a))
                <==> forall a: Address :: a in p.ex.cache || a in looked ==> SeenBy(p.ex, a) == Truly(ex.db.tables, a))
  {
    LookedStaysCached(evm, p, |txs| - 1, Last(txs), looked);
    FatalRestores(evm, ex, txs);
    FreshWhenTrue(ex.db.tables, ExecuteBlock(evm, ex, txs).0, p.ex, looked);
  }

  lemma FreshWhenTrue(t: Tables, after: Executor, during: Executor, looked: set<Address>)
    requires after.db.buffer.None? && after.db.tables == t && after.cache.Keys == during.cache.Keys + looked
    requires forall a :: a in after.cache ==> after.cache[a] == SeenBy(during, a)
    ensures (forall a: Address :: SeenBy(after, a) == Truly(t, a))
            <==> forall a: Address :: a in during.cache || a in looked ==> SeenBy(during, a) == Truly(t, a)
  {
    forall a: Address ensures SeenBy(after, a) == if a in during.cache || a in looked then SeenBy(during, a) else Truly(t, a) {
      CacheOverlay(t, after.cache, a);
      assert a in after.cache <==> a in after.cache.Keys;
    }
  }

  /** An EVM that credits the caller with 5 at nonce 0 and fails after looking at the caller otherwise. */
  const CREDIT_THEN_FAIL: Evm :=
    (v: View, e: Env) =>
      if e.nonce == 0
      then Done(Success, 21000, [Change(e.caller, false, true, Info(Basic(v, e.caller).balance + 5, 1, EMPTY_CODE_HASH), None, [])])
      else Failed({e.caller})

  /** A call with the usual gas and no price of its own. */
  function PlainTx(from: Address, nonce: nat): Tx {
    Tx(None, Some(from), Some(None), Some(0), Some([]), Some(21000), Some(nonce), None, None)
  }

  /** The case that goes wrong: the block is rolled back, yet the executor goes on seeing the credit. */
  lemma StaleAccount(t: Tables, a: Address)
    requires a in t.accounts && t.accounts[a].nonce == 0 && 21000 * ONE_GWEI <= t.accounts[a].balance
    ensures var ex := Executor(Db(t, None, []), map[]);
            var (after, r) := ExecuteBlock(CREDIT_THEN_FAIL, ex, [PlainTx(a, 0), PlainTx(a, 1)]);
            && r == Err(EvmFailure) && after.db == ex.db
            && SeenBy(ex, a).balance == t.accounts[a].balance && SeenBy(after, a).balance == t.accounts[a].balance + 5
  {
    var ex := Executor(Db(t, None, []), map[]);
    var start := ex.(db := Exec(ex.db, Begin));
    var txs := [PlainTx(a, 0), PlainTx(a, 1)];
    assert Front(txs) == [PlainTx(a, 0)] && Front([PlainTx(a, 0)]) == [];
    var p := CreditStep(start, a);
    assert RunTxs(CREDIT_THEN_FAIL, start, Front(txs)) == Running(p);
    SecondFails(p, a);
    FatalRestores(CREDIT_THEN_FAIL, ex, txs);
    CacheOverlay(t, ExecuteBlock(CREDIT_THEN_FAIL, ex, txs).0.cache, a);
  }

  lemma SecondFails(p: Progress, a: Address)
    requires var account := At(Visible(p.ex.db).accounts, a);
             account.Some? && account.value.nonce == 1 && 21000 * ONE_GWEI <= account.value.balance
    requires p.ex.cache == map[]
    ensures var b := StepTx(CREDIT_THEN_FAIL, p, 1, PlainTx(a, 1));
            && b.Stopped? && b.error == EvmFailure && a in b.ex.cache
            && b.ex.cache[a].balance == Visible(p.ex.db).accounts[a].balance
  {
    ValidIff(Visible(p.ex.db).accounts, PlainTx(a, 1));
    LookedStaysCached(CREDIT_THEN_FAIL, p, 1, PlainTx(a, 1), {a});
  }

  lemma CreditStep(ex: Executor, a: Address) returns (p: Progress)
    requires ex.db.buffer == Some(NOTHING) && ex.cache == map[]
    requires var accounts := ex.db.tables.accounts;
             a in accounts && accounts[a].nonce == 0 && 21000 * ONE_GWEI <= accounts[a].balance
    ensures StepTx(CREDIT_THEN_FAIL, Progress(ex, 0, 0, 0, map[]), 0, PlainTx(a, 0)) == Running(p)
    ensures p.ex.cache == map[]
    ensures At(Visible(p.ex.db).accounts, a) == Some(Account(ex.db.tables.accounts[a].balance + 5, 1, EMPTY_CODE_HASH, 0))
  {
    var balance := ex.db.tables.accounts[a].balance;
    var start, write := Progress(ex, 0, 0, 0, map[]), SetAccount(a, Account(balance + 5, 1, EMPTY_CODE_HASH, 0));
    var o := Done(Success, 21000, [Change(a, false, true, Info(balance + 5, 1, EMPTY_CODE_HASH), None, [])]);
    CreditOutcome(ex.db, a, o);
    AcceptedStep(CREDIT_THEN_FAIL, start, 0, PlainTx(a, 0), o);
    CreditWrites(o.state, write);
    p := StepTx(CREDIT_THEN_FAIL, start, 0, PlainTx(a, 0)).p;
    assert p.ex.db == Run(ex.db, Dos([write]));
    RunOne(ex.db, [], write);
    assert [] + [write] == [write];
  }

  lemma CreditOutcome(db: Db, a: Address, o: Outcome)
    requires db.buffer == Some(NOTHING) && a in db.tables.accounts
    requires db.tables.accounts[a].nonce == 0 && 21000 * ONE_GWEI <= db.tables.accounts[a].balance
    requires o == Done(Success, 21000, [Change(a, false, true, Info(db.tables.accounts[a].balance + 5, 1, EMPTY_CODE_HASH), None, [])])
    ensures !Rejected(db, PlainTx(a, 0)) && CREDIT_THEN_FAIL(ViewOf(Visible(db), map[]), BuildEnv(PlainTx(a, 0)).value) == o
  {
    assert Visible(db).accounts == db.tables.accounts;
    ValidIff(Visible(db).accounts, PlainTx(a, 0));
    CacheOverlay(Visible(db), map[], a);
  }

  lemma CreditWrites(state: seq<Change>, write: Op)
    requires |state| == 1 && ChangeWrites(state[0]) == [write]
    ensures StateWrites(state) == [write]
  {
    assert Front(state) == [] && [] + [write] == [write];
  }

  // ----- Against plain tables -----

  /** The reference: no buffer and no cache, every write made at once. Code comes from before the block. */
  datatype Reference =
    | Reached(tables: Tables, writes: seq<Op>, gas: nat, successful: nat, failed: nat)
    | Aborted(error: Error)

  function ReferenceOutcome(r: Reference, o: Outcome): Reference
    requires r.Reached?
  {
    match o
    case Failed(_) => Aborted(EvmFailure)
    case Done(verdict, gas, state) =>
      if verdict.Halt? then Aborted(EvmFailure)
      else Reached(Directly(r.tables, StateWrites(state)), r.writes + StateWrites(state), (r.gas + gas) % TWO_64,
                   if verdict.Success? then r.successful + 1 else r.successful,
                   if verdict.Success? then r.failed else r.failed + 1)
  }

  function ReferenceStep(evm: Evm, codes: map<Hash, Code>, r: Reference, tx: Tx): Reference {
    if r.Aborted? then r
    else if Validate(r.tables.accounts, tx).Err? || BuildEnv(tx).Err? then r.(failed := r.failed + 1)
    else
      ReferenceOutcome(r, evm(ViewOf(r.tables.(codes := codes), map[]), BuildEnv(tx).value))
  }

  function ReferenceRun(evm: Evm, t: Tables, txs: seq<Tx>): Reference {
    if txs == [] then Reached(t, [], 0, 0, 0)
    else ReferenceStep(evm, t.codes, ReferenceRun(evm, t, Front(txs)), Last(txs))
  }

  /** The block in its transaction stands where the reference stands. */
  ghost predicate Matches(t: Tables, b: Block, r: Reference) {
    if r.Aborted? then b.Stopped? && b.error == r.error
    else
      && b.Running? && b.p.ex.cache == map[]
      && b.p.ex.db.tables == t && b.p.ex.db.buffer == Some(Collected(r.writes))
      && r.tables == Directly(t, r.writes)
      && b.p.gas == r.gas && b.p.successful == r.successful && b.p.failed == r.failed
  }

  /** What the reads show in a transaction: the directly written tables, with the old code. */
  lemma VisibleInTransaction(t: Tables, writes: seq<Op>, changed: seq<Address>)
    ensures Visible(Db(t, Some(Collected(writes)), changed)) == Directly(t, writes).(codes := t.codes)
  {
    var v := Visible(Db(t, Some(Collected(writes)), changed));
    OthersFollow(t, writes);
    forall a: Address ensures At(v.accounts, a) == At(Directly(t, writes).accounts, a) {
      AccountFollows(t, writes, a);
    }
    SameLookups(v.accounts, Directly(t, writes).accounts);
  }

  lemma {:induction false} DirectlyMore(t: Tables, written: seq<Op>, ops: seq<Op>)
    ensures Directly(t, written + ops) == Directly(Directly(t, written), ops)
  {
    if ops == [] {
      assert written + [] == written;
    } else {
      DirectlyMore(t, written, Front(ops));
      assert Front(written + ops) == written + Front(ops);
    }
  }

  /** The block after an accepted transaction, told by the EVM's outcome. */
  ghost predicate Accepted(p: Progress, o: Outcome, b: Block) {
    if o.Failed? || o.verdict.Halt? then b.Stopped? && b.error == EvmFailure
    else
      && b.Running? && b.p.ex == Executor(Run(p.ex.db, Dos(StateWrites(o.state))), map[])
      && b.p.gas == (p.gas + o.gas) % TWO_64
      && b.p.successful == (if o.verdict.Success? then p.successful + 1 else p.successful)
      && b.p.failed == (if o.verdict.Success? then p.failed else p.failed + 1)
  }

  lemma AcceptedStep(evm: Evm, p: Progress, index: nat, tx: Tx, o: Outcome)
    requires !Rejected(p.ex.db, tx) && o == evm(ViewOf(Visible(p.ex.db), p.ex.cache), BuildEnv(tx).value)
    ensures Accepted(p, o, StepTx(evm, p, index, tx))
  {
  }

  lemma MatchesAccepted(t: Tables, p: Progress, r: Reference, o: Outcome, b: Block)
    requires Matches(t, Running(p), r) && r.Reached? && Accepted(p, o, b)
    ensures Matches(t, b, ReferenceOutcome(r, o))
  {
    if o.Done? {
      var writes := StateWrites(o.state);
      WritesInTransaction(p.ex.db, r.writes, writes);
      DirectlyMore(t, r.writes, writes);
    }
  }

  lemma MatchesStep(evm: Evm, t: Tables, b: Block, r: Reference, index: nat, tx: Tx)
    requires Matches(t, b, r)
    ensures Matches(t, Next(evm, b, index, tx), ReferenceStep(evm, t.codes, r, tx))
  {
    if r.Reached? {
      var db := b.p.ex.db;
      assert db == Db(t, Some(Collected(r.writes)), db.changed);
      VisibleInTransaction(t, r.writes, db.changed);
      if Rejected(db, tx) {
        RejectedStep(evm, b.p, index, tx);
      } else {
        var o := evm(ViewOf(r.tables.(codes := t.codes), map[]), BuildEnv(tx).value);
        AcceptedStep(evm, b.p, index, tx, o);
        MatchesAccepted(t, b.p, r, o, StepTx(evm, b.p, index, tx));
      }
    }
  }

  lemma {:induction false} RunMatches(evm: Evm, ex: Executor, txs: seq<Tx>)
    requires ex.db.buffer == Some(NOTHING) && ex.cache == map[]
    ensures Matches(ex.db.tables, RunTxs(evm, ex, txs), ReferenceRun(evm, ex.db.tables, txs))
  {
    if txs != [] {
      RunMatches(evm, ex, Front(txs));
      MatchesStep(evm, ex.db.tables, RunTxs(evm, ex, Front(txs)), ReferenceRun(evm, ex.db.tables, Front(txs)), |txs| - 1, Last(txs));
    }
  }

  /** A block reports what the reference reports, and an aborted one changes nothing; a finished one leaves
      the reference's tables exactly when it resurrects no account. */
  lemma BlockMatchesReference(evm: Evm, ex: Executor, txs: seq<Tx>)
    requires ex.db.buffer.None? && ex.cache == map[]
    ensures var r := ReferenceRun(evm, ex.db.tables, txs);
            var (after, result) := ExecuteBlock(evm, ex, txs);
            && after.db.buffer.None?
            && (r.Aborted? ==> result == Err(r.error) && after.db.tables == ex.db.tables)
            && (r.Reached? ==>
                  && result.Ok? && after.cache == map[]
                  && result.value.gas == r.gas && result.value.successful == r.successful && result.value.failed == r.failed
                  && (after.db.tables == r.tables <==> forall a: Address :: !Resurrected(r.writes, a)))
  {
    var start := ex.(db := Exec(ex.db, Begin));
    RunMatches(evm, start, txs);
    var r := ReferenceRun(evm, ex.db.tables, txs);
    if r.Aborted? {
      FatalRestores(evm, ex, txs);
    } else {
      CommitExactIff(ex.db.tables, r.writes);
    }
  }

  // ----- The executor object -----

  function Resumed(ex: Executor, sofar: Report): Progress {
    Progress(ex, sofar.gas, sofar.successful, sofar.failed, sofar.receipts)
  }

  /** The executor's state and answer for a block run so far. */
  predicate Reported(b: Block, ex: Executor, r: Result<Report>) {
    match b
    case Running(p) => r.Ok? && p == Resumed(ex, r.value)
    case Stopped(e, error) => r == Err(error) && ex == e
  }

  lemma RunTxsNext(evm: Evm, ex: Executor, txs: seq<Tx>, i: nat)
    requires i < |txs|
    ensures RunTxs(evm, ex, txs[..i + 1]) == Next(evm, RunTxs(evm, ex, txs[..i]), i, txs[i])
  {
    assert Front(txs[..i + 1]) == txs[..i];
  }

  class BlockExecutor {
    const db: RedbStateDB
    var cache: map<Address, Info>

    ghost function S(): Executor
      reads this, db
    {
      Executor(db.S(), cache)
    }

    constructor (database: RedbStateDB)
      ensures db == database && cache == map[]
    {
      db, cache := database, map[];
    }

    /** `basic`: an account as the EVM is shown it. Asking fills the cache and changes no later answer. */
    method BasicInfo(a: Address) returns (info: Info)
      modifies this`cache
      ensures info == old(SeenBy(S(), a)) && cache == old(cache)[a := info]
      ensures forall b: Address :: SeenBy(S(), b) == old(SeenBy(S(), b))
    {
      if a in cache {
        return cache[a];
      }
      VisibleIsRead(db.S());
      var account := db.ReadAccount(a);
      info := if account.Some? then InfoOf(account.value) else NO_ACCOUNT;
      cache := cache[a := info];
    }

    /** Accepts exactly the transactions that the sender's account, as the database reads it, can pay for. */
    method ValidateTransaction(tx: Tx) returns (r: Result<()>)
      ensures r.Ok? <==> tx.from.Some? && Payable(tx, GetAccount(db.S(), tx.from.value))
      ensures r == Validate(Visible(db.S()).accounts, tx)
    {
      ValidIff(Visible(db.S()).accounts, tx);
      if tx.gas.None? { return Err(Transaction); }
      if tx.gas.value == 0 { return Err(InvalidGas); }
      if tx.from.None? { return Err(Transaction); }
      VisibleIsRead(db.S());
      var account := db.ReadAccount(tx.from.value);
      if tx.nonce.None? { return Err(Transaction); }
      if account.Some? && tx.nonce.value < account.value.nonce {
        return Err(NonceTooLow(account.value.nonce, tx.nonce.value));
      }
      var cost := Cost(tx);
      if cost.Err? { return Err(cost.error); }
      var available := if account.Some? then account.value.balance else 0;
      if available < cost.value { return Err(InsufficientFunds(cost.value, available)); }
      r := Ok(());
    }

    /** Writes the accounts, code and slots the EVM changed, in order. */
    method ApplyStateChanges(state: seq<Change>)
      modifies db
      ensures db.S() == Run(old(db.S()), Dos(StateWrites(state)))
    {
      for i := 0 to |state|
        invariant db.S() == Run(old(db.S()), Dos(StateWrites(state[..i])))
      {
        ghost var before := StateWrites(state[..i]);
        assert Front(state[..i + 1]) == state[..i];
        ApplyChange(state[i]);
        RunMore(old(db.S()), before, ChangeWrites(state[i]));
      }
      assert state[..|state|] == state;
    }

    method ApplyChange(c: Change)
      modifies db
      ensures db.S() == Run(old(db.S()), Dos(ChangeWrites(c)))
    {
      ghost var start := db.S();
      ghost var done: seq<Op> := [];
      if c.destroyed {
        assert done + [DeleteAccount(c.address)] == [DeleteAccount(c.address)];
        RunOne(start, done, DeleteAccount(c.address));
        db.RemoveAccount(c.address);
      } else if c.touched {
        var account := Account(c.info.balance, c.info.nonce, c.info.codeHash, 0);
        assert done + [SetAccount(c.address, account)] == [SetAccount(c.address, account)];
        RunOne(start, done, SetAccount(c.address, account));
        db.PutAccount(c.address, account);
        done := [SetAccount(c.address, account)];
        if c.code.Some? && c.info.codeHash != EMPTY_CODE_HASH && c.code.value != [] {
          RunOne(start, done, SetCode(c.info.codeHash, c.code.value));
          db.PutCode(c.info.codeHash, c.code.value);
          done := done + [SetCode(c.info.codeHash, c.code.value)];
        }
        ApplySlots(c.address, c.slots);
        RunMore(start, done, SlotWrites(c.address, c.slots));
        assert ChangeWrites(c) == done + SlotWrites(c.address, c.slots);
      }
    }

    method ApplySlots(a: Address, slots: seq<Slot>)
      modifies db
      ensures db.S() == Run(old(db.S()), Dos(SlotWrites(a, slots)))
    {
      for i := 0 to |slots|
        invariant db.S() == Run(old(db.S()), Dos(SlotWrites(a, slots[..i])))
      {
        assert Front(slots[..i + 1]) == slots[..i];
        assert SlotWrites(a, slots[..i]) + [] == SlotWrites(a, slots[..i]);
        if slots[i].changed {
          RunOne(old(db.S()), SlotWrites(a, slots[..i]), SetStorage(a, slots[i].key, slots[i].value));
          db.PutStorage(a, slots[i].key, slots[i].value);
        }
      }
      assert slots[..|slots|] == slots;
    }

    method Execute(evm: Evm, tx: Tx) returns (r: Result<Executed>)
      modifies this`cache, db
      ensures (S(), r) == ExecuteTx(evm, old(S()), tx)
    {
      var env := BuildEnv(tx);
      if env.Err? { return Err(env.error); }
      ghost var view := ViewOf(Visible(db.S()), cache);
      var seen := VisibleTables();
      var outcome := evm(ViewOf(seen, cache), env.value);
      if outcome.Failed? {
        cache := cache + map a | a in outcome.looked :: Basic(ViewOf(seen, cache), a);
        return Err(EvmFailure);
      }
      ApplyStateChanges(outcome.state);
      cache := map[];
      if outcome.verdict.Halt? { return Err(EvmFailure); }
      r := Ok(Executed(outcome.gas, outcome.verdict.Success?));
    }

    method VisibleTables() returns (t: Tables)
      ensures t == Visible(db.S())
    {
      t := Visible(Db(db.tables, db.buffer, db.changed));
    }

    /** One round of the loop over the block. */
    method ExecuteNext(evm: Evm, index: nat, tx: Tx, sofar: Report) returns (r: Result<Report>)
      modifies this`cache, db
      ensures Reported(StepTx(evm, Resumed(old(S()), sofar), index, tx), S(), r)
    {
      var verdict := ValidateTransaction(tx);
      if verdict.Err? {
        return Ok(sofar.(failed := sofar.failed + 1));
      }
      var result := Execute(evm, tx);
      if result.Err? {
        return if IsFatal(result.error) then Err(result.error) else Ok(sofar.(failed := sofar.failed + 1));
      }
      var gas := (sofar.gas + result.value.gas) % TWO_64;
      var successful, failed := sofar.successful, sofar.failed;
      if result.value.success {
        successful := successful + 1;
      } else {
        failed := failed + 1;
      }
      r := Ok(Report(gas, successful, failed,
                     sofar.receipts[KeyOf(tx, index) := Receipt(index, result.value.gas, gas, result.value.success)]));
    }

    method ExecuteTransactions(evm: Evm, txs: seq<Tx>) returns (r: Result<Report>)
      modifies this`cache, db
      ensures Reported(RunTxs(evm, old(S()), txs), S(), r)
    {
      var sofar := Report(0, 0, 0, map[]);
      for index := 0 to |txs|
        invariant RunTxs(evm, old(S()), txs[..index]) == Running(Resumed(S(), sofar))
      {
        RunTxsNext(evm, old(S()), txs, index);
        r := ExecuteNext(evm, index, txs[index], sofar);
        if r.Err? {
          StoppedStays(evm, old(S()), txs, index + 1);
          return;
        }
        sofar := r.value;
      }
      assert txs[..|txs|] == txs;
      r := Ok(sofar);
    }

    /** `execute_block`. */
    method RunBlock(evm: Evm, txs: seq<Tx>) returns (r: Result<Report>)
      modifies this`cache, db
      ensures (S(), r) == ExecuteBlock(evm, old(S()), txs)
    {
      var begun := db.BeginTransaction();
      if !begun { return Err(Database); }
      r := ExecuteTransactions(evm, txs);
      if r.Err? {
        db.RollbackTransaction();
      } else {
        var committed := db.CommitTransaction();
      }
    }
  }

  lemma RunOne(db: Db, ops: seq<Op>, op: Op)
    ensures Run(db, Dos(ops + [op])) == Exec(Run(db, Dos(ops)), Do(op))
  {
    assert Front(Dos(ops + [op])) == Dos(ops) && Last(Dos(ops + [op])) == Do(op);
  }

  lemma {:induction false} RunMore(db: Db, ops: seq<Op>, more: seq<Op>)
    ensures Run(db, Dos(ops + more)) == Run(Run(db, Dos(ops)), Dos(more))
  {
    if more == [] {
      assert ops + [] == ops;
    } else {
      RunMore(db, ops, Front(more));
      assert ops + more == (ops + Front(more)) + [Last(more)] && more == Front(more) + [Last(more)];
      RunOne(db, ops + Front(more), Last(more));
      RunOne(Run(db, Dos(ops)), Front(more), Last(more));
    }
  }

  /** A stopped block runs nothing more. */
  lemma {:induction false} StoppedStays(evm: Evm, ex: Executor, txs: seq<Tx>, k: nat)
    requires k <= |txs| && RunTxs(evm, ex, txs[..k]).Stopped?
    ensures RunTxs(evm, ex, txs) == RunTxs(evm, ex, txs[..k])
  {
    if k == |txs| {
      assert txs[..k] == txs;
    } else {
      assert Front(txs)[..k] == txs[..k];
      StoppedStays(evm, ex, Front(txs), k);
    }
  }
}
