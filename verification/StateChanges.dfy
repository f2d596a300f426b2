/**
 What the state changes of one transaction leave in the database, and what the EVM is given to compute them
 from (block-producer/src/executor/revm_adapter.rs, transaction.rs).
 */
module StateChanges {
  import opened Basics
  import opened StateDb
  import opened Executor
  import WalKeys

  // ----- Slots -----

  /** The value a list of slots gives a key: that of its last changed slot. */
  function SlotValue(slots: seq<Slot>, k: Word): Option<Word> {
    if slots == [] then None
    else if Last(slots).changed && Last(slots).key == k then Some(Last(slots).value)
    else SlotValue(Front(slots), k)
  }

  function OrElse<T>(a: Option<T>, b: Option<T>): Option<T> { if a.Some? then a else b }

  /** Changed slots are written, unchanged ones and those of other accounts are left alone. */
  lemma {:induction false} SlotsWritten(t: Tables, a: Address, slots: seq<Slot>, b: Address, k: Word)
    ensures var d := Directly(t, SlotWrites(a, slots));
            && At(d.storage, (b, k)) == OrElse(if b == a then SlotValue(slots, k) else None, At(t.storage, (b, k)))
            && d == t.(storage := d.storage)
  {
    if slots != [] {
      var before := SlotWrites(a, Front(slots));
      SlotsWritten(t, a, Front(slots), b, k);
      if Last(slots).changed {
        DirectlyOne(t, before, SetStorage(a, Last(slots).key, Last(slots).value));
      } else {
        assert SlotWrites(a, slots) == before;
      }
    }
  }

  lemma DirectlyOne(t: Tables, ops: seq<Op>, op: Op)
    ensures Directly(t, ops + [op]) == Direct(Directly(t, ops), op)
  {
    assert Front(ops + [op]) == ops;
  }

  // ----- One changed account -----

  /** The change writes its account. */
  predicate Writes(c: Change) { c.touched && !c.destroyed }

  /** The change brings code under a hash: not empty, and not under the hash of the empty code. */
  predicate Deploys(c: Change, h: Hash, code: Code) {
    Writes(c) && c.code == Some(code) && code != [] && c.info.codeHash == h && h != EMPTY_CODE_HASH
  }

  /** What a change makes of its own account. */
  ghost predicate AccountApplied(t: Tables, d: Tables, c: Change) {
    && (c.destroyed ==> c.address !in d.accounts)
    && (Writes(c) ==>
          && c.address in d.accounts
          && d.accounts[c.address].balance == c.info.balance && d.accounts[c.address].nonce == c.info.nonce
          && d.accounts[c.address].codeHash == c.info.codeHash && d.accounts[c.address].storageRoot == 0)
    && (!c.destroyed && !c.touched ==> At(d.accounts, c.address) == At(t.accounts, c.address))
  }

  /** What it makes of its slots; a destroyed account keeps them. */
  ghost predicate SlotsApplied(t: Tables, d: Tables, c: Change) {
    forall k: Word ::
      At(d.storage, (c.address, k))
      == OrElse(if Writes(c) then SlotValue(c.slots, k) else None, At(t.storage, (c.address, k)))
  }

  ghost predicate SameAt(t: Tables, d: Tables, a: Address) {
    At(d.accounts, a) == At(t.accounts, a) && forall k: Word :: At(d.storage, (a, k)) == At(t.storage, (a, k))
  }

  /** The tables between the account and the slots. */
  function Headed(t: Tables, c: Change): Tables
    requires Writes(c)
  {
    var u := t.(accounts := t.accounts[c.address := Account(c.info.balance, c.info.nonce, c.info.codeHash, 0)]);
    if c.code.Some? && Deploys(c, c.info.codeHash, c.code.value)
    then u.(codes := u.codes[c.info.codeHash := c.code.value]) else u
  }

  lemma WritesInOrder(t: Tables, c: Change)
    requires Writes(c)
    ensures Directly(t, ChangeWrites(c)) == Directly(Headed(t, c), SlotWrites(c.address, c.slots))
  {
    var account := SetAccount(c.address, Account(c.info.balance, c.info.nonce, c.info.codeHash, 0));
    DirectlyOne(t, [], account);
    assert [] + [account] == [account];
    if c.code.Some? && Deploys(c, c.info.codeHash, c.code.value) {
      var code := SetCode(c.info.codeHash, c.code.value);
      DirectlyOne(t, [account], code);
      DirectlyMore(t, [account] + [code], SlotWrites(c.address, c.slots));
    } else {
      assert [account] + [] == [account];
      DirectlyMore(t, [account], SlotWrites(c.address, c.slots));
    }
  }

  lemma ChangeStorage(t: Tables, c: Change, a: Address, k: Word)
    ensures var d := Directly(t, ChangeWrites(c));
            At(d.storage, (a, k))
            == OrElse(if a == c.address && Writes(c) then SlotValue(c.slots, k) else None, At(t.storage, (a, k)))
  {
    if c.destroyed {
      DirectlyOne(t, [], DeleteAccount(c.address));
      assert [] + [DeleteAccount(c.address)] == [DeleteAccount(c.address)];
    } else if c.touched {
      WritesInOrder(t, c);
      SlotsWritten(Headed(t, c), c.address, c.slots, a, k);
    }
  }

  lemma ChangeRest(t: Tables, c: Change)
    ensures var d := Directly(t, ChangeWrites(c));
            && d.hashes == t.hashes
            && d.accounts == (if c.destroyed then t.accounts - {c.address} else if c.touched then Headed(t, c).accounts else t.accounts)
            && d.codes == (if Writes(c) then Headed(t, c).codes else t.codes)
  {
    if c.destroyed {
      DirectlyOne(t, [], DeleteAccount(c.address));
      assert [] + [DeleteAccount(c.address)] == [DeleteAccount(c.address)];
    } else if c.touched {
      WritesInOrder(t, c);
      SlotsWritten(Headed(t, c), c.address, c.slots, c.address, 0);
    }
  }

  /** A change concerns its own account and its own slots, and no other account. */
  lemma ChangeApplied(t: Tables, c: Change)
    ensures var d := Directly(t, ChangeWrites(c)); AccountApplied(t, d, c) && SlotsApplied(t, d, c)
  {
    ChangeRest(t, c);
    forall k: Word
      ensures At(Directly(t, ChangeWrites(c)).storage, (c.address, k))
              == OrElse(if Writes(c) then SlotValue(c.slots, k) else None, At(t.storage, (c.address, k)))
    {
      ChangeStorage(t, c, c.address, k);
    }
  }

  lemma ChangeKeeps(t: Tables, c: Change, a: Address)
    requires a != c.address
    ensures SameAt(t, Directly(t, ChangeWrites(c)), a)
  {
    ChangeRest(t, c);
    forall k: Word ensures At(Directly(t, ChangeWrites(c)).storage, (a, k)) == At(t.storage, (a, k)) {
      ChangeStorage(t, c, a, k);
    }
  }

  // ----- All changes of a transaction -----

  /** The EVM reports each account once. */
  predicate OncePerAddress(state: seq<Change>) {
    forall i, j :: 0 <= i < j < |state| ==> state[i].address != state[j].address
  }

  /** Accounts the transaction does not report, and all block hashes, are as before. */
  lemma {:induction false} OthersKept(t: Tables, state: seq<Change>, a: Address)
    requires forall i :: 0 <= i < |state| ==> state[i].address != a
    ensures SameAt(t, Directly(t, StateWrites(state)), a)
    ensures Directly(t, StateWrites(state)).hashes == t.hashes
  {
    if state != [] {
      var mid := Directly(t, StateWrites(Front(state)));
      OthersKept(t, Front(state), a);
      DirectlyMore(t, StateWrites(Front(state)), ChangeWrites(Last(state)));
      ChangeKeeps(mid, Last(state), a);
      ChangeRest(mid, Last(state));
    }
  }

  /** Every account the transaction reports ends as reported: a destroyed one is gone, a touched one has the
      reported balance, nonce, code hash and slots. */
  lemma {:induction false} ChangesApplied(t: Tables, state: seq<Change>, i: nat)
    requires OncePerAddress(state) && i < |state|
    ensures var d := Directly(t, StateWrites(state)); AccountApplied(t, d, state[i]) && SlotsApplied(t, d, state[i])
  {
    var mid, c := Directly(t, StateWrites(Front(state))), state[i];
    DirectlyMore(t, StateWrites(Front(state)), ChangeWrites(Last(state)));
    if i < |state| - 1 {
      ChangesApplied(t, Front(state), i);
      ChangeKeeps(mid, Last(state), c.address);
    } else {
      OthersKept(t, Front(state), c.address);
      ChangeApplied(mid, c);
    }
  }

  ghost predicate DeployedIn(state: seq<Change>, h: Hash, code: Code) {
    exists i :: 0 <= i < |state| && Deploys(state[i], h, code)
  }

  /** Under every hash lies code that the transaction deployed there, if it deployed any, and what lay there
      before otherwise. */
  lemma {:induction false} CodesApplied(t: Tables, state: seq<Change>, h: Hash)
    ensures var d := Directly(t, StateWrites(state));
            if exists code :: DeployedIn(state, h, code) then h in d.codes && DeployedIn(state, h, d.codes[h])
            else At(d.codes, h) == At(t.codes, h)
  {
    if state != [] {
      var mid, c := Directly(t, StateWrites(Front(state))), Last(state);
      CodesApplied(t, Front(state), h);
      DirectlyMore(t, StateWrites(Front(state)), ChangeWrites(Last(state)));
      ChangeRest(mid, c);
      forall code ensures DeployedIn(state, h, code) <==> DeployedIn(Front(state), h, code) || Deploys(c, h, code) {
        DeployedMore(state, h, code);
      }
    }
  }

  lemma DeployedMore(state: seq<Change>, h: Hash, code: Code)
    requires state != []
    ensures DeployedIn(state, h, code) <==> DeployedIn(Front(state), h, code) || Deploys(Last(state), h, code)
  {
    if DeployedIn(Front(state), h, code) {
      var i :| 0 <= i < |Front(state)| && Deploys(Front(state)[i], h, code);
      assert Deploys(state[i], h, code);
    }
    if Deploys(Last(state), h, code) { assert Deploys(state[|state| - 1], h, code); }
    if DeployedIn(state, h, code) {
      var i :| 0 <= i < |state| && Deploys(state[i], h, code);
      assert i < |state| - 1 ==> Deploys(Front(state)[i], h, code);
    }
  }

  /** The same as the rest of the block reads it: from then on the account of a reported change answers as
      reported, in a block whose earlier transactions wrote `written`. */
  lemma ChangesAreRead(t: Tables, changed: seq<Address>, written: seq<Op>, state: seq<Change>, i: nat)
    requires OncePerAddress(state) && i < |state|
    ensures var db := Db(t, Some(Collected(written)), changed);
            var after, c := StateDb.Run(db, Dos(StateWrites(state))), state[i];
            && (c.destroyed ==> GetAccount(after, c.address) == None)
            && (Writes(c) ==> GetAccount(after, c.address) == Some(Account(c.info.balance, c.info.nonce, c.info.codeHash, 0)))
            && forall k: Word :: GetStorage(after, c.address, k)
                 == if Writes(c) && SlotValue(c.slots, k).Some? then SlotValue(c.slots, k).value else GetStorage(db, c.address, k)
  {
    var db, ops := Db(t, Some(Collected(written)), changed), StateWrites(state);
    var after, c := StateDb.Run(db, Dos(ops)), state[i];
    WritesInTransaction(db, written, ops);
    DirectlyMore(t, written, ops);
    ReadsSeeWrites(t, written, changed);
    ReadsSeeWrites(t, written + ops, after.changed);
    assert after == Db(t, Some(Collected(written + ops)), after.changed);
    ChangesApplied(Directly(t, written), state, i);
    var before, d := Directly(t, written), Directly(t, written + ops);
    assert GetAccount(after, c.address) == At(d.accounts, c.address);
    forall k: Word
      ensures GetStorage(after, c.address, k)
              == if Writes(c) && SlotValue(c.slots, k).Some? then SlotValue(c.slots, k).value else GetStorage(db, c.address, k)
    {
      assert GetStorage(after, c.address, k) == Get(d.storage, (c.address, k), 0);
      assert GetStorage(db, c.address, k) == Get(before.storage, (c.address, k), 0);
      assert At(d.storage, (c.address, k))
             == OrElse(if Writes(c) then SlotValue(c.slots, k) else None, At(before.storage, (c.address, k)));
    }
  }

  // ----- Receipt keys -----

  /** A receipt is found under the transaction's hash; without one, under a key that no other transaction without
      a hash shares. */
  lemma ReceiptKeys(a: Tx, i: nat, b: Tx, j: nat)
    ensures a.hash.Some? ==> Some(KeyOf(a, i)) == a.hash
    ensures a.hash.None? ==> |KeyOf(a, i)| > 3 && KeyOf(a, i)[..3] == "tx_"
    ensures a.hash.None? && b.hash.None? && KeyOf(a, i) == KeyOf(b, j) ==> i == j
  {
    WalKeys.DecimalReads(i);
    WalKeys.DecimalReads(j);
    if a.hash.None? && b.hash.None? && KeyOf(a, i) == KeyOf(b, j) {
      assert KeyOf(a, i)[3..] == WalKeys.Decimal(i) && KeyOf(b, j)[3..] == WalKeys.Decimal(j);
    }
  }

  // ----- What the EVM is given -----

  /** The EVM is shown what the database reads: each slot, block hash and code, and each account's balance,
      nonce and code hash, unless the cache has that account; an unknown account is empty. */
  lemma EvmSeesReads(ex: Executor, a: Address, k: Word, n: nat, h: Hash)
    ensures var view, account := ViewOf(Visible(ex.db), ex.cache), GetAccount(ex.db, a);
            && Get(view.storage, (a, k), 0) == GetStorage(ex.db, a, k)
            && At(view.hashes, n) == GetBlockHash(ex.db, n)
            && At(view.codes, h) == GetCode(ex.db, h)
            && (a in ex.cache ==> Basic(view, a) == ex.cache[a])
            && (a !in ex.cache && account.None? ==> Basic(view, a) == Info(0, 0, EMPTY_CODE_HASH))
            && (a !in ex.cache && account.Some? ==>
                  && Basic(view, a).balance == account.value.balance && Basic(view, a).nonce == account.value.nonce
                  && Basic(view, a).codeHash == account.value.codeHash)
  {
    VisibleIsRead(ex.db);
    assert GetAccount(ex.db, a) == At(Visible(ex.db).accounts, a);
    CacheOverlay(Visible(ex.db), ex.cache, a);
  }

  /** Every field of the transaction can be read; a price and a chain may be absent. */
  predicate Readable(tx: Tx) {
    && tx.from.Some? && tx.to.Some? && tx.value.Some? && tx.data.Some? && tx.gas.Some? && tx.nonce.Some?
    && tx.price != Some(None)
  }

  /** The environment exists exactly for a readable transaction and carries that transaction's own fields. */
  lemma EnvCarriesTx(tx: Tx)
    ensures BuildEnv(tx).Ok? <==> Readable(tx)
    ensures BuildEnv(tx).Ok? ==>
              var env := BuildEnv(tx).value;
              && Some(env.caller) == tx.from && Some(env.to) == tx.to && Some(env.value) == tx.value
              && Some(env.data) == tx.data && Some(env.gas) == tx.gas && Some(env.nonce) == tx.nonce
              && (if env.price.Some? then tx.price == Some(env.price) else tx.price == None) && env.chain == tx.chain
  {
  }
}
