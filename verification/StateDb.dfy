/**
 The state database with its transaction buffer (block-producer/src/db/redb_db.rs,
 block-producer/src/db/traits.rs): what is written between `begin` and `commit` sits in a buffer that
 reads consult first, and commit copies it into the tables.
 */
module StateDb {
  import opened Basics

  type Address = nat
  type Word = nat
  type Hash = nat
  type Code = seq<nat>

  datatype Account = Account(balance: nat, nonce: nat, codeHash: Hash, storageRoot: Hash)

  datatype Tables = Tables(
    accounts: map<Address, Account>,
    storage: map<(Address, Word), Word>,
    codes: map<Hash, Code>,
    hashes: map<nat, Hash>)

  /** `TransactionBuffer`. */
  datatype Buffer = Buffer(
    accounts: map<Address, Account>,
    storage: map<(Address, Word), Word>,
    codes: map<Hash, Code>,
    hashes: map<nat, Hash>,
    deleted: seq<Address>)

  datatype Db = Db(tables: Tables, buffer: Option<Buffer>, changed: seq<Address>)

  const NOTHING := Buffer(map[], map[], map[], map[], [])

  datatype Op =
    | SetAccount(address: Address, account: Account)
    | DeleteAccount(address: Address)
    | SetStorage(address: Address, key: Word, value: Word)
    | SetCode(hash: Hash, code: Code)
    | SetBlockHash(number: nat, hash: Hash)

  // ----- Writes -----

  /** A write outside a transaction. */
  function Direct(t: Tables, op: Op): Tables {
    match op
    case SetAccount(a, acc) => t.(accounts := t.accounts[a := acc])
    case DeleteAccount(a) => t.(accounts := t.accounts - {a})
    case SetStorage(a, k, v) => t.(storage := t.storage[(a, k) := v])
    case SetCode(h, code) => t.(codes := t.codes[h := code])
    case SetBlockHash(n, h) => t.(hashes := t.hashes[n := h])
  }

  /** A write inside a transaction. Setting an account does not take it off the list of deletions. */
  function Buffered(b: Buffer, op: Op): Buffer {
    match op
    case SetAccount(a, acc) => b.(accounts := b.accounts[a := acc])
    case DeleteAccount(a) => b.(accounts := b.accounts - {a}, deleted := b.deleted + [a])
    case SetStorage(a, k, v) => b.(storage := b.storage[(a, k) := v])
    case SetCode(h, code) => b.(codes := b.codes[h := code])
    case SetBlockHash(n, h) => b.(hashes := b.hashes[n := h])
  }

  predicate Touches(op: Op, a: Address) {
    (op.SetAccount? || op.DeleteAccount? || op.SetStorage?) && op.address == a
  }

  function Tracked(changed: seq<Address>, op: Op): seq<Address> {
    if (op.SetAccount? || op.DeleteAccount? || op.SetStorage?) && op.address !in changed
    then changed + [op.address] else changed
  }

  function Apply(db: Db, op: Op): Db {
    match db.buffer
    case None => Db(Direct(db.tables, op), None, Tracked(db.changed, op))
    case Some(b) => Db(db.tables, Some(Buffered(b, op)), Tracked(db.changed, op))
  }

  /** Commit writes the buffered accounts first and removes the deleted ones after that. */
  function Flushed(t: Tables, b: Buffer): Tables {
    Tables((t.accounts + b.accounts) - (set a | a in b.deleted),
           t.storage + b.storage, t.codes + b.codes, t.hashes + b.hashes)
  }

  datatype Cmd = Begin | Commit | Rollback | Do(op: Op)

  /** One call. Beginning twice, or committing without a transaction, is an error and changes nothing. */
  function Exec(db: Db, c: Cmd): Db {
    match c
    case Begin => if db.buffer.Some? then db else Db(db.tables, Some(NOTHING), [])
    case Commit =>
      (match db.buffer
       case None => db
       case Some(b) => Db(Flushed(db.tables, b), None, db.changed))
    case Rollback => Db(db.tables, None, [])
    case Do(op) => Apply(db, op)
  }

  function Run(db: Db, cmds: seq<Cmd>): Db {
    if cmds == [] then db else Exec(Run(db, Front(cmds)), Last(cmds))
  }

  // ----- Reads -----

  function At<K, V>(m: map<K, V>, k: K): Option<V> {
    if k in m then Some(m[k]) else None
  }

  function GetAccount(db: Db, a: Address): Option<Account> {
    if db.buffer.Some? && a in db.buffer.value.accounts then Some(db.buffer.value.accounts[a])
    else if db.buffer.Some? && a in db.buffer.value.deleted then None
    else At(db.tables.accounts, a)
  }

  function GetStorage(db: Db, a: Address, k: Word): Word {
    if db.buffer.Some? && (a, k) in db.buffer.value.storage then db.buffer.value.storage[(a, k)]
    else Get(db.tables.storage, (a, k), 0)
  }

  function GetBlockHash(db: Db, n: nat): Option<Hash> {
    if db.buffer.Some? && n in db.buffer.value.hashes then Some(db.buffer.value.hashes[n])
    else At(db.tables.hashes, n)
  }

  /** Code is read from the table alone. */
  function GetCode(db: Db, h: Hash): Option<Code> { At(db.tables.codes, h) }

  // ----- A read after a write, and after a commit -----

  /** Inside a transaction and outside, a write is what the next read of the same account, slot or block hash
      finds, and every other read answers as before. Code is found at once outside a transaction, and not before
      the commit inside one. */
  lemma ReadAfterWrite(db: Db, op: Op, a: Address, k: Word, n: nat, h: Hash)
    ensures var after := Apply(db, op);
            && GetAccount(after, a) == (if op.SetAccount? && op.address == a then Some(op.account)
                                        else if op == DeleteAccount(a) then None else GetAccount(db, a))
            && GetStorage(after, a, k) == (if op.SetStorage? && op.address == a && op.key == k then op.value else GetStorage(db, a, k))
            && GetBlockHash(after, n) == (if op.SetBlockHash? && op.number == n then Some(op.hash) else GetBlockHash(db, n))
            && GetCode(after, h) == (if db.buffer.None? && op.SetCode? && op.hash == h then Some(op.code) else GetCode(db, h))
    ensures db.buffer.Some? && op.SetCode? ==> GetCode(Exec(Apply(db, op), Commit), op.hash) == Some(op.code)
  {
  }

  /** A commit changes no answer but that for an account deleted in the transaction, which is gone, and that
      for code written in it, which is there. */
  lemma ReadAfterCommit(db: Db, a: Address, k: Word, n: nat, h: Hash)
    requires db.buffer.Some?
    ensures var after, b := Exec(db, Commit), db.buffer.value;
            && GetAccount(after, a) == (if a in b.deleted then None else GetAccount(db, a))
            && GetStorage(after, a, k) == GetStorage(db, a, k)
            && GetBlockHash(after, n) == GetBlockHash(db, n)
            && GetCode(after, h) == (if h in b.codes then Some(b.codes[h]) else GetCode(db, h))
  {
    var b := db.buffer.value;
    assert h in db.tables.codes + b.codes <==> h in db.tables.codes || h in b.codes;
    assert (a, k) in db.tables.storage + b.storage <==> (a, k) in db.tables.storage || (a, k) in b.storage;
  }

  // ----- One transaction -----

  function Directly(t: Tables, ops: seq<Op>): Tables {
    if ops == [] then t else Direct(Directly(t, Front(ops)), Last(ops))
  }

  function Collected(ops: seq<Op>): Buffer {
    if ops == [] then NOTHING else Buffered(Collected(Front(ops)), Last(ops))
  }

  predicate SetsAt(ops: seq<Op>, j: int, a: Address) {
    0 <= j < |ops| && ops[j].SetAccount? && ops[j].address == a
  }

  /** The account is set after a deletion and not deleted again. */
  ghost predicate Resurrected(ops: seq<Op>, a: Address) {
    && DeleteAccount(a) in ops
    && exists j :: SetsAt(ops, j, a) && DeleteAccount(a) !in ops[j..]
  }

  /** What the buffer knows of an account, against the tables after direct writes. */
  ghost predicate AccountAgrees(t: Tables, ops: seq<Op>, a: Address) {
    var d, b := Directly(t, ops).accounts, Collected(ops);
    && (a in b.deleted <==> DeleteAccount(a) in ops)
    && (a in b.accounts <==> exists j :: SetsAt(ops, j, a) && DeleteAccount(a) !in ops[j..])
    && At(d, a) == (if a in b.accounts then Some(b.accounts[a]) else if a in b.deleted then None else At(t.accounts, a))
  }

  lemma {:induction false} LastSet(ops: seq<Op>, op: Op, a: Address)
    ensures (exists j :: SetsAt(ops + [op], j, a) && DeleteAccount(a) !in (ops + [op])[j..])
            <==> (op.SetAccount? && op.address == a)
                 || (op != DeleteAccount(a) && exists j :: SetsAt(ops, j, a) && DeleteAccount(a) !in ops[j..])
  {
    var all := ops + [op];
    forall j | 0 <= j <= |ops| ensures all[j..] == ops[j..] + [op] { }
    if op.SetAccount? && op.address == a {
      assert SetsAt(all, |ops|, a) && all[|ops|..] == [op];
    }
    if exists j :: SetsAt(ops, j, a) && DeleteAccount(a) !in ops[j..] {
      var j :| SetsAt(ops, j, a) && DeleteAccount(a) !in ops[j..];
      assert SetsAt(all, j, a) && all[j..] == ops[j..] + [op];
    }
    if exists j :: SetsAt(all, j, a) && DeleteAccount(a) !in all[j..] {
      var j :| SetsAt(all, j, a) && DeleteAccount(a) !in all[j..];
      assert op in all[j..];
      if j < |ops| {
        assert SetsAt(ops, j, a);
        forall o | o in ops[j..] ensures o in all[j..] { }
      }
    }
  }

  lemma {:induction false} AccountFollows(t: Tables, ops: seq<Op>, a: Address)
    ensures AccountAgrees(t, ops, a)
  {
    if ops != [] {
      AccountFollows(t, Front(ops), a);
      assert ops == Front(ops) + [Last(ops)];
      LastSet(Front(ops), Last(ops), a);
      AccountStep(Directly(t, Front(ops)), Collected(Front(ops)), Last(ops), a, At(t.accounts, a));
    }
  }

  lemma AccountStep(d: Tables, b: Buffer, op: Op, a: Address, base: Option<Account>)
    requires At(d.accounts, a) == (if a in b.accounts then Some(b.accounts[a]) else if a in b.deleted then None else base)
    ensures var d', b' := Direct(d, op), Buffered(b, op);
            At(d'.accounts, a) == (if a in b'.accounts then Some(b'.accounts[a]) else if a in b'.deleted then None else base)
  {
  }

  /** Storage, code and block hashes of the buffer laid over the tables are the directly written ones. */
  ghost predicate OthersAgree(t: Tables, d: Tables, b: Buffer) {
    d.storage == t.storage + b.storage && d.codes == t.codes + b.codes && d.hashes == t.hashes + b.hashes
  }

  lemma OthersStep(t: Tables, d: Tables, b: Buffer, op: Op)
    requires OthersAgree(t, d, b)
    ensures OthersAgree(t, Direct(d, op), Buffered(b, op))
  {
  }

  lemma {:induction false} OthersFollow(t: Tables, ops: seq<Op>)
    ensures OthersAgree(t, Directly(t, ops), Collected(ops))
  {
    if ops == [] {
      assert t.storage + map[] == t.storage && t.codes + map[] == t.codes && t.hashes + map[] == t.hashes;
    } else {
      OthersFollow(t, Front(ops));
      OthersStep(t, Directly(t, Front(ops)), Collected(Front(ops)), Last(ops));
    }
  }

  /** A transaction leaves the tables that the same writes leave without one, exactly when it resurrects
      no account. */
  lemma CommitExactIff(t: Tables, ops: seq<Op>)
    ensures Flushed(t, Collected(ops)) == Directly(t, ops) <==> forall a: Address :: !Resurrected(ops, a)
  {
    var d, f := Directly(t, ops), Flushed(t, Collected(ops));
    OthersFollow(t, ops);
    forall a: Address ensures Resurrected(ops, a) <==> At(f.accounts, a) != At(d.accounts, a) {
      AccountFollows(t, ops, a);
    }
    if forall a: Address :: !Resurrected(ops, a) {
      forall a: Address ensures At(f.accounts, a) == At(d.accounts, a) { assert !Resurrected(ops, a); }
      SameLookups(f.accounts, d.accounts);
    } else {
      var a: Address :| Resurrected(ops, a);
      assert At(f.accounts, a) != At(d.accounts, a);
    }
  }

  lemma SameLookups<K, V>(m: map<K, V>, n: map<K, V>)
    requires forall k :: At(m, k) == At(n, k)
    ensures m == n
  {
    forall k ensures k in m <==> k in n { assert At(m, k) == At(n, k); }
    forall k | k in m ensures m[k] == n[k] { assert At(m, k) == At(n, k); }
  }

  /** The smallest failing family: the read inside the transaction finds the account, the commit drops it. */
  lemma ResurrectedIsLost(t: Tables, a: Address, acc: Account)
    ensures var db := Run(Db(t, None, []), [Begin, Do(DeleteAccount(a)), Do(SetAccount(a, acc))]);
            && GetAccount(db, a) == Some(acc)
            && GetAccount(Exec(db, Commit), a) == None
  {
    var c1, c2 := [Begin], [Begin, Do(DeleteAccount(a))];
    var c3 := [Begin, Do(DeleteAccount(a)), Do(SetAccount(a, acc))];
    assert Front(c1) == [] && Front(c2) == c1 && Front(c3) == c2;
    var d1 := Exec(Db(t, None, []), Begin);
    assert Run(Db(t, None, []), c1) == d1;
    var d2 := Exec(d1, Do(DeleteAccount(a)));
    assert Run(Db(t, None, []), c2) == d2;
    assert a in d2.buffer.value.deleted;
  }

  // ----- Whole runs of calls -----

  /** The intended database: a transaction works on a copy of the tables. */
  datatype Spec = Spec(committed: Tables, working: Option<Tables>)

  function SpecExec(s: Spec, c: Cmd): Spec {
    match c
    case Begin => if s.working.Some? then s else Spec(s.committed, Some(s.committed))
    case Commit => if s.working.Some? then Spec(s.working.value, None) else s
    case Rollback => Spec(s.committed, None)
    case Do(op) =>
      if s.working.Some? then Spec(s.committed, Some(Direct(s.working.value, op)))
      else Spec(Direct(s.committed, op), None)
  }

  function SpecRun(s: Spec, cmds: seq<Cmd>): Spec {
    if cmds == [] then s else SpecExec(SpecRun(s, Front(cmds)), Last(cmds))
  }

  function View(s: Spec): Tables { if s.working.Some? then s.working.value else s.committed }

  /** The writes of the transaction left open by a list of calls. */
  function OpenWrites(cmds: seq<Cmd>): Option<seq<Op>> {
    if cmds == [] then None
    else
      var before := OpenWrites(Front(cmds));
      match Last(cmds)
      case Begin => if before.Some? then before else Some([])
      case Do(op) => if before.Some? then Some(before.value + [op]) else None
      case _ => None
  }

  /** No committed transaction resurrects an account. */
  ghost predicate CleanCommits(cmds: seq<Cmd>) {
    cmds != [] ==>
      && CleanCommits(Front(cmds))
      && (Last(cmds).Commit? && OpenWrites(Front(cmds)).Some? ==>
            forall a: Address :: !Resurrected(OpenWrites(Front(cmds)).value, a))
  }

  /** The database stands for the intended one. */
  ghost predicate Stands(db: Db, s: Spec, writes: Option<seq<Op>>) {
    && db.tables == s.committed
    && db.buffer == (if writes.Some? then Some(Collected(writes.value)) else None)
    && s.working == (if writes.Some? then Some(Directly(s.committed, writes.value)) else None)
  }

  lemma {:induction false} RunStands(t: Tables, cmds: seq<Cmd>)
    requires CleanCommits(cmds)
    ensures Stands(Run(Db(t, None, []), cmds), SpecRun(Spec(t, None), cmds), OpenWrites(cmds))
  {
    if cmds != [] {
      var db, s := Run(Db(t, None, []), Front(cmds)), SpecRun(Spec(t, None), Front(cmds));
      var writes := OpenWrites(Front(cmds));
      RunStands(t, Front(cmds));
      match Last(cmds) {
        case Commit => if writes.Some? { CommitExactIff(s.committed, writes.value); }
        case _ =>
      }
    }
  }

  /** Account, slot and block-hash reads answer from these tables. */
  ghost predicate Sees(db: Db, d: Tables) {
    && (forall a: Address :: GetAccount(db, a) == At(d.accounts, a))
    && (forall a: Address, k: Word :: GetStorage(db, a, k) == Get(d.storage, (a, k), 0))
    && (forall n: nat :: GetBlockHash(db, n) == At(d.hashes, n))
  }

  /** Over every list of calls without a committed resurrection the tables are those of the intended
      database, and account, slot and block-hash reads see its working copy. */
  lemma OverlayRefines(t: Tables, cmds: seq<Cmd>)
    requires CleanCommits(cmds)
    ensures var db, s := Run(Db(t, None, []), cmds), SpecRun(Spec(t, None), cmds);
            && db.tables == s.committed && (db.buffer.Some? <==> s.working.Some?)
            && Sees(db, View(s))
  {
    RunStands(t, cmds);
    var db, s := Run(Db(t, None, []), cmds), SpecRun(Spec(t, None), cmds);
    if OpenWrites(cmds).Some? {
      ReadsSeeWrites(s.committed, OpenWrites(cmds).value, db.changed);
      assert db == Db(s.committed, Some(Collected(OpenWrites(cmds).value)), db.changed);
    }
  }

  /** Inside a transaction, reads see its writes as if made directly, resurrections included. */
  lemma ReadsSeeWrites(t: Tables, ops: seq<Op>, changed: seq<Address>)
    ensures Sees(Db(t, Some(Collected(ops)), changed), Directly(t, ops))
  {
    OthersFollow(t, ops);
    forall a: Address ensures GetAccount(Db(t, Some(Collected(ops)), changed), a) == At(Directly(t, ops).accounts, a) {
      AccountFollows(t, ops, a);
    }
  }

  /** The last code written under a hash. */
  function LastCode(ops: seq<Op>, h: Hash): Option<Code> {
    if ops == [] then None
    else if Last(ops).SetCode? && Last(ops).hash == h then Some(Last(ops).code)
    else LastCode(Front(ops), h)
  }

  lemma {:induction false} CodeFollows(ops: seq<Op>, h: Hash)
    ensures At(Collected(ops).codes, h) == LastCode(ops, h)
  {
    if ops != [] { CodeFollows(Front(ops), h); }
  }

  /** A code read inside a transaction answers from before it, so it agrees with the writes exactly when the
      last code written under the hash, if any, is already in the table. */
  lemma CodeReadIff(t: Tables, ops: seq<Op>, changed: seq<Address>, h: Hash)
    ensures GetCode(Db(t, Some(Collected(ops)), changed), h) == At(Directly(t, ops).codes, h)
            <==> LastCode(ops, h) == None || LastCode(ops, h) == At(t.codes, h)
  {
    OthersFollow(t, ops);
    CodeFollows(ops, h);
    assert At(Directly(t, ops).codes, h) == if LastCode(ops, h).Some? then LastCode(ops, h) else At(t.codes, h);
  }

  function Dos(ops: seq<Op>): seq<Cmd> { seq(|ops|, i requires 0 <= i < |ops| => Do(ops[i])) }

  lemma {:induction false} WithinTransaction(db: Db, ops: seq<Op>)
    requires db.buffer.None?
    ensures var r := Run(Exec(db, Begin), Dos(ops)); r.tables == db.tables && r.buffer == Some(Collected(ops))
  {
    if ops != [] {
      WithinTransaction(db, Front(ops));
      assert Front(Dos(ops)) == Dos(Front(ops)) && Last(Dos(ops)) == Do(Last(ops));
    }
  }

  /** Whatever a transaction wrote, a rollback leaves tables and reads as they were before it, and a commit
      leaves the directly written tables exactly when no account was resurrected. */
  lemma TransactionEnds(db: Db, ops: seq<Op>)
    requires db.buffer.None?
    ensures Exec(Run(Exec(db, Begin), Dos(ops)), Rollback) == db.(changed := [])
    ensures Exec(Run(Exec(db, Begin), Dos(ops)), Commit).buffer == None
    ensures Exec(Run(Exec(db, Begin), Dos(ops)), Commit).tables == Directly(db.tables, ops)
            <==> forall a: Address :: !Resurrected(ops, a)
  {
    WithinTransaction(db, ops);
    CommitExactIff(db.tables, ops);
  }

  ghost predicate ChangedIs(changed: seq<Address>, ops: seq<Op>) {
    && (forall a: Address :: a in changed <==> exists i :: 0 <= i < |ops| && Touches(ops[i], a))
    && (forall i, j :: 0 <= i < j < |changed| ==> changed[i] != changed[j])
  }

  /** The addresses recorded for the state root: each one written since the transaction began, once. */
  lemma {:induction false} ChangedExactly(db: Db, ops: seq<Op>)
    requires db.buffer.None?
    ensures ChangedIs(Run(Exec(db, Begin), Dos(ops)).changed, ops)
  {
    if ops != [] {
      ChangedExactly(db, Front(ops));
      assert Front(Dos(ops)) == Dos(Front(ops)) && Last(Dos(ops)) == Do(Last(ops));
      TrackedExactly(Run(Exec(db, Begin), Dos(Front(ops))).changed, Front(ops), Last(ops));
      assert ops == Front(ops) + [Last(ops)];
    }
  }

  lemma TrackedExactly(changed: seq<Address>, ops: seq<Op>, op: Op)
    requires ChangedIs(changed, ops)
    ensures ChangedIs(Tracked(changed, op), ops + [op])
  {
    var after := Tracked(changed, op);
    forall a: Address ensures a in after <==> exists i :: 0 <= i < |ops + [op]| && Touches((ops + [op])[i], a) {
      if exists i :: 0 <= i < |ops| && Touches(ops[i], a) {
        var i :| 0 <= i < |ops| && Touches(ops[i], a);
        assert Touches((ops + [op])[i], a);
      }
      if Touches(op, a) { assert Touches((ops + [op])[|ops|], a); }
      assert a in after <==> a in changed || Touches(op, a);
    }
  }

  // ----- The database object -----

  /** Inserting every entry of one map into another, one by one. */
  method PutAll<K(==), V>(table: map<K, V>, entries: map<K, V>) returns (r: map<K, V>)
    ensures r == table + entries
  {
    r := table;
    var todo := entries.Keys;
    while todo != {}
      invariant todo <= entries.Keys
      invariant r == table + map k | k in entries && k !in todo :: entries[k]
    {
      var k :| k in todo;
      r := r[k := entries[k]];
      todo := todo - {k};
    }
  }

  class RedbStateDB {
    var tables: Tables
    var buffer: Option<Buffer>
    var changed: seq<Address>

    ghost function S(): Db
      reads this
    {
      Db(tables, buffer, changed)
    }

    constructor (initial: Tables)
      ensures S() == Db(initial, None, [])
    {
      tables, buffer, changed := initial, None, [];
    }

    method Track(a: Address)
      modifies this`changed
      ensures changed == if a in old(changed) then old(changed) else old(changed) + [a]
    {
      if a !in changed {
        changed := changed + [a];
      }
    }

    method PutAccount(a: Address, account: Account)
      modifies this
      ensures S() == Exec(old(S()), Do(SetAccount(a, account)))
    {
      Track(a);
      if buffer.Some? {
        buffer := Some(buffer.value.(accounts := buffer.value.accounts[a := account]));
      } else {
        tables := tables.(accounts := tables.accounts[a := account]);
      }
    }

    method RemoveAccount(a: Address)
      modifies this
      ensures S() == Exec(old(S()), Do(DeleteAccount(a)))
    {
      Track(a);
      if buffer.Some? {
        var b := buffer.value;
        buffer := Some(b.(accounts := b.accounts - {a}, deleted := b.deleted + [a]));
      } else {
        tables := tables.(accounts := tables.accounts - {a});
      }
    }

    method PutStorage(a: Address, key: Word, value: Word)
      modifies this
      ensures S() == Exec(old(S()), Do(SetStorage(a, key, value)))
    {
      Track(a);
      if buffer.Some? {
        buffer := Some(buffer.value.(storage := buffer.value.storage[(a, key) := value]));
      } else {
        tables := tables.(storage := tables.storage[(a, key) := value]);
      }
    }

    method PutCode(hash: Hash, code: Code)
      modifies this
      ensures S() == Exec(old(S()), Do(SetCode(hash, code)))
    {
      if buffer.Some? {
        buffer := Some(buffer.value.(codes := buffer.value.codes[hash := code]));
      } else {
        tables := tables.(codes := tables.codes[hash := code]);
      }
    }

    method PutBlockHash(number: nat, hash: Hash)
      modifies this
      ensures S() == Exec(old(S()), Do(SetBlockHash(number, hash)))
    {
      if buffer.Some? {
        buffer := Some(buffer.value.(hashes := buffer.value.hashes[number := hash]));
      } else {
        tables := tables.(hashes := tables.hashes[number := hash]);
      }
    }

    method ReadAccount(a: Address) returns (r: Option<Account>)
      ensures r == GetAccount(S(), a)
    {
      if buffer.Some? {
        if a in buffer.value.accounts { return Some(buffer.value.accounts[a]); }
        if a in buffer.value.deleted { return None; }
      }
      r := if a in tables.accounts then Some(tables.accounts[a]) else None;
    }

    method ReadStorage(a: Address, key: Word) returns (r: Word)
      ensures r == GetStorage(S(), a, key)
    {
      if buffer.Some? && (a, key) in buffer.value.storage {
        return buffer.value.storage[(a, key)];
      }
      r := if (a, key) in tables.storage then tables.storage[(a, key)] else 0;
    }

    method BeginTransaction() returns (ok: bool)
      modifies this
      ensures ok == old(buffer.None?) && S() == Exec(old(S()), Begin)
    {
      if buffer.Some? {
        return false;
      }
      buffer := Some(NOTHING);
      changed := [];
      ok := true;
    }

    /** Copies the buffer into the tables, table by table, deletions after the accounts. */
    method CommitTransaction() returns (ok: bool)
      modifies this
      ensures ok == old(buffer.Some?) && S() == Exec(old(S()), Commit)
    {
      if buffer.None? {
        return false;
      }
      var b := buffer.value;
      buffer := None;
      var accounts := PutAll(tables.accounts, b.accounts);
      for i := 0 to |b.deleted|
        invariant accounts == (tables.accounts + b.accounts) - (set a | a in b.deleted[..i])
      {
        accounts := accounts - {b.deleted[i]};
      }
      assert b.deleted[..|b.deleted|] == b.deleted;
      var storage := PutAll(tables.storage, b.storage);
      var codes := PutAll(tables.codes, b.codes);
      var hashes := PutAll(tables.hashes, b.hashes);
      tables := Tables(accounts, storage, codes, hashes);
      ok := true;
    }

    method RollbackTransaction()
      modifies this
      ensures S() == Exec(old(S()), Rollback)
    {
      buffer := None;
      changed := [];
    }
  }
}
