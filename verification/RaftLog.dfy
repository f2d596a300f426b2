/**
 Octopii's Raft log store (octopii/src/openraft/storage.rs): an in-memory log, vote, commit and purge
 point, with a record log beside it that is replayed at start-up. The persistent state is that of
 Figure 2 of the Raft paper by Ongaro and Ousterhout.
 */
module RaftLog {
  import opened Basics

  datatype LogId = LogId(term: nat, node: nat, index: nat)

  /** Log ids are ordered by term, then node, then index. */
  predicate LeqId(a: LogId, b: LogId) {
    a.term < b.term || (a.term == b.term && (a.node < b.node || (a.node == b.node && a.index <= b.index)))
  }

  datatype Vote = Vote(term: nat, node: nat, committed: bool)

  datatype Entry = Entry(id: LogId, payload: string)

  datatype Store = Store(
    purged: Option<LogId>,
    log: map<nat, Entry>,
    committed: Option<LogId>,
    vote: Option<Vote>)

  const EMPTY := Store(None, map[], None, None)

  /** The records of the write-ahead log. */
  datatype Record =
    | LogEntry(entry: Entry)
    | VoteSaved(vote: Vote)
    | CommittedSaved(committed: Option<LogId>)
    | Purged(id: LogId)
    | Truncated(id: LogId)

  datatype Op =
    | Append(entries: seq<Entry>)
    | SaveVote(vote: Vote)
    | SaveCommitted(committed: Option<LogId>)
    | Truncate(id: LogId)
    | Purge(id: LogId)

  // ----- The in-memory operations -----

  function Insert(log: map<nat, Entry>, entries: seq<Entry>): map<nat, Entry> {
    if entries == [] then log else Insert(log, Front(entries))[Last(entries).id.index := Last(entries)]
  }

  function DropFrom(log: map<nat, Entry>, index: nat): map<nat, Entry> {
    map i | i in log && i < index :: log[i]
  }

  function DropThrough(log: map<nat, Entry>, index: nat): map<nat, Entry> {
    map i | i in log && index < i :: log[i]
  }

  /** The assertion in `purge`: the purge point never moves back, in log id order. A purge that breaks it
      panics before anything has changed. */
  predicate PurgeAllowed(s: Store, id: LogId) { s.purged.None? || LeqId(s.purged.value, id) }

  function Do(s: Store, op: Op): Store {
    match op
    case Append(entries) => s.(log := Insert(s.log, entries))
    case SaveVote(vote) => s.(vote := Some(vote))
    case SaveCommitted(committed) => s.(committed := committed)
    case Truncate(id) => s.(log := DropFrom(s.log, id.index))
    case Purge(id) => if PurgeAllowed(s, id) then s.(purged := Some(id), log := DropThrough(s.log, id.index)) else s
  }

  function DoAll(s: Store, ops: seq<Op>): Store {
    if ops == [] then s else Do(DoAll(s, Front(ops)), Last(ops))
  }

  // ----- The records, and their replay -----

  function EntryRecords(entries: seq<Entry>): (r: seq<Record>)
    ensures |r| == |entries| && forall i :: 0 <= i < |r| ==> r[i] == LogEntry(entries[i])
  {
    seq(|entries|, i requires 0 <= i < |entries| => LogEntry(entries[i]))
  }

  /** What an operation appends to the record log. */
  function Records(s: Store, op: Op): seq<Record> {
    match op
    case Append(entries) => EntryRecords(entries)
    case SaveVote(vote) => [VoteSaved(vote)]
    case SaveCommitted(committed) => [CommittedSaved(committed)]
    case Truncate(id) => [Truncated(id)]
    case Purge(id) => if PurgeAllowed(s, id) then [Purged(id)] else []
  }

  function AllRecords(s: Store, ops: seq<Op>): seq<Record> {
    if ops == [] then [] else AllRecords(s, Front(ops)) + Records(DoAll(s, Front(ops)), Last(ops))
  }

  function ReplayOne(s: Store, r: Record): Store {
    match r
    case LogEntry(entry) => s.(log := s.log[entry.id.index := entry])
    case VoteSaved(vote) => s.(vote := Some(vote))
    case CommittedSaved(committed) => s.(committed := committed)
    case Purged(id) => s.(log := DropThrough(s.log, id.index), purged := Some(id))
    case Truncated(id) => s.(log := DropFrom(s.log, id.index))
  }

  function Replay(s: Store, records: seq<Record>): Store {
    if records == [] then s else ReplayOne(Replay(s, Front(records)), Last(records))
  }

  lemma {:induction false} ReplayConcat(s: Store, a: seq<Record>, b: seq<Record>)
    ensures Replay(s, a + b) == Replay(Replay(s, a), b)
  {
    if b == [] {
      assert a + b == a;
    } else {
      assert Front(a + b) == a + Front(b) && Last(a + b) == Last(b);
      ReplayConcat(s, a, Front(b));
    }
  }

  lemma {:induction false} ReplayEntries(s: Store, entries: seq<Entry>)
    ensures Replay(s, EntryRecords(entries)) == Do(s, Append(entries))
  {
    if entries != [] {
      ReplayEntries(s, Front(entries));
      assert Front(EntryRecords(entries)) == EntryRecords(Front(entries));
    } else {
      assert s.(log := s.log) == s;
    }
  }

  lemma ReplayOp(s: Store, op: Op)
    ensures Replay(s, Records(s, op)) == Do(s, op)
  {
    match op
    case Append(entries) => ReplayEntries(s, entries);
    case Purge(id) => if PurgeAllowed(s, id) { assert Front([Purged(id)]) == []; }
    case SaveVote(vote) => assert Front([VoteSaved(vote)]) == [];
    case SaveCommitted(committed) => assert Front([CommittedSaved(committed)]) == [];
    case Truncate(id) => assert Front([Truncated(id)]) == [];
  }

  /** Replaying all records rebuilds exactly the in-memory store, for every operation sequence. */
  lemma {:induction false} RecoveryIsExact(s: Store, ops: seq<Op>)
    ensures Replay(s, AllRecords(s, ops)) == DoAll(s, ops)
  {
    if ops != [] {
      RecoveryIsExact(s, Front(ops));
      var mid := DoAll(s, Front(ops));
      ReplayConcat(s, AllRecords(s, Front(ops)), Records(mid, Last(ops)));
      ReplayOp(mid, Last(ops));
    }
  }

  /** `ops[..j]` were carried out, and of the next operation, if it is an append, its first `m` entries. */
  ghost predicate CutState(s: Store, ops: seq<Op>, j: nat, m: nat, result: Store) {
    && j <= |ops|
    && if m == 0 then result == DoAll(s, ops[..j])
       else j < |ops| && ops[j].Append? && m <= |ops[j].entries|
            && result == Do(DoAll(s, ops[..j]), Append(ops[j].entries[..m]))
  }

  /** A cut inside the records of one operation applies the first entries of an append, or all of another
      operation. */
  lemma CutInside(mid: Store, op: Op, k: nat)
    requires 0 < k <= |Records(mid, op)|
    ensures Replay(mid, Records(mid, op)[..k])
            == if op.Append? then Do(mid, Append(op.entries[..k])) else Do(mid, op)
  {
    var records := Records(mid, op);
    if op.Append? {
      assert records[..k] == EntryRecords(op.entries[..k]);
      ReplayEntries(mid, op.entries[..k]);
    } else {
      assert records[..k] == records;
      ReplayOp(mid, op);
    }
  }

  /** The same as a cut of the whole list in its last operation. */
  lemma CutInLast(s: Store, ops: seq<Op>, k: nat, result: Store) returns (j: nat, m: nat)
    requires ops != []
    requires var mid := DoAll(s, Front(ops)); 0 < k <= |Records(mid, Last(ops))| && result == Replay(mid, Records(mid, Last(ops))[..k])
    ensures CutState(s, ops, j, m, result)
  {
    CutInside(DoAll(s, Front(ops)), Last(ops), k);
    if Last(ops).Append? {
      j, m := |ops| - 1, k;
      assert ops[..j] == Front(ops);
    } else {
      j, m := |ops|, 0;
      assert ops[..j] == ops;
    }
  }

  lemma CutEarlier(s: Store, ops: seq<Op>, j: nat, m: nat, result: Store)
    requires ops != [] && CutState(s, Front(ops), j, m, result)
    ensures CutState(s, ops, j, m, result)
  {
    assert ops[..j] == Front(ops)[..j];
  }

  /** Replaying any cut prefix of the record log yields the state after some prefix of the operations, with
      at most the last append partly applied. */
  lemma {:induction false} RecoveryFromCut(s: Store, ops: seq<Op>, cut: nat) returns (j: nat, m: nat)
    requires cut <= |AllRecords(s, ops)|
    ensures CutState(s, ops, j, m, Replay(s, AllRecords(s, ops)[..cut]))
  {
    if ops == [] {
      j, m := 0, 0;
      assert ops[..0] == [];
      return;
    }
    var front := Front(ops);
    var before, rest := AllRecords(s, front), Records(DoAll(s, front), Last(ops));
    if cut <= |before| {
      assert AllRecords(s, ops)[..cut] == before[..cut];
      j, m := RecoveryFromCut(s, front, cut);
      CutEarlier(s, ops, j, m, Replay(s, before[..cut]));
    } else {
      var k := cut - |before|;
      assert AllRecords(s, ops)[..cut] == before + rest[..k];
      ReplayConcat(s, before, rest[..k]);
      RecoveryIsExact(s, front);
      j, m := CutInLast(s, ops, k, Replay(DoAll(s, front), rest[..k]));
    }
  }

  // ----- Reference: what an operation list stores, read off the list alone -----

  function LastVote(ops: seq<Op>): Option<Vote> {
    if ops == [] then None
    else if Last(ops).SaveVote? then Some(Last(ops).vote)
    else LastVote(Front(ops))
  }

  function LastCommitted(ops: seq<Op>): Option<LogId> {
    if ops == [] then None
    else if Last(ops).SaveCommitted? then Last(ops).committed
    else LastCommitted(Front(ops))
  }

  /** The greatest log id purged so far; a smaller one later does not count. */
  function GreatestPurge(ops: seq<Op>): Option<LogId> {
    if ops == [] then None
    else
      var before := GreatestPurge(Front(ops));
      if Last(ops).Purge? && (before.None? || LeqId(before.value, Last(ops).id)) then Some(Last(ops).id) else before
  }

  /** The last entry of a list with a given index. */
  function EntryIn(entries: seq<Entry>, index: nat): Option<Entry> {
    if entries == [] then None
    else if Last(entries).id.index == index then Some(Last(entries))
    else EntryIn(Front(entries), index)
  }

  /** The entry last appended at an index, unless a later truncation or purge took it away. */
  function EntryAt(ops: seq<Op>, index: nat): Option<Entry> {
    if ops == [] then None
    else
      var before := EntryAt(Front(ops), index);
      match Last(ops)
      case Append(entries) => if EntryIn(entries, index).Some? then EntryIn(entries, index) else before
      case Truncate(id) => if id.index <= index then None else before
      case Purge(id) => if index <= id.index && GreatestPurge(ops) == Some(id) then None else before
      case _ => before
  }

  predicate HoldsAt(log: map<nat, Entry>, index: nat, entry: Option<Entry>) {
    (index in log <==> entry.Some?) && (index in log ==> entry == Some(log[index]))
  }

  /** The store holds the vote and commit position saved last, the greatest purge point and the surviving
      entries of an operation list. */
  ghost predicate Holds(s: Store, ops: seq<Op>) {
    && s.vote == LastVote(ops)
    && s.committed == LastCommitted(ops)
    && s.purged == GreatestPurge(ops)
    && forall i :: HoldsAt(s.log, i, EntryAt(ops, i))
  }

  lemma {:induction false} InsertHolds(log: map<nat, Entry>, entries: seq<Entry>, index: nat, before: Option<Entry>)
    requires HoldsAt(log, index, before)
    ensures HoldsAt(Insert(log, entries), index, if EntryIn(entries, index).Some? then EntryIn(entries, index) else before)
  {
    if entries != [] { InsertHolds(log, Front(entries), index, before); }
  }

  /** For every operation list, legal or not. */
  lemma {:induction false} StoreHolds(ops: seq<Op>)
    ensures Holds(DoAll(EMPTY, ops), ops)
  {
    if ops != [] {
      var before, op := DoAll(EMPTY, Front(ops)), Last(ops);
      StoreHolds(Front(ops));
      forall i ensures HoldsAt(Do(before, op).log, i, EntryAt(ops, i)) {
        assert HoldsAt(before.log, i, EntryAt(Front(ops), i));
        if op.Append? { InsertHolds(before.log, op.entries, i, EntryAt(Front(ops), i)); }
      }
    }
  }

  /** It is the greatest: one of the ids purged, and none of them is above it. */
  lemma {:induction false} GreatestIsGreatest(ops: seq<Op>)
    ensures GreatestPurge(ops).Some? ==> Purge(GreatestPurge(ops).value) in ops
    ensures forall id :: Purge(id) in ops ==> GreatestPurge(ops).Some? && LeqId(id, GreatestPurge(ops).value)
  {
    if ops != [] {
      GreatestIsGreatest(Front(ops));
      assert ops == Front(ops) + [Last(ops)];
    }
  }

  /** A restart on the records of any operation list finds the vote, the commit position, the purge point
      and the entries of that list. */
  lemma RecoveredHolds(ops: seq<Op>)
    ensures Holds(Replay(EMPTY, AllRecords(EMPTY, ops)), ops)
  {
    RecoveryIsExact(EMPTY, ops);
    StoreHolds(ops);
  }

  // ----- The shape of the log under the Raft storage contract -----

  /** The first index not purged. */
  function Low(s: Store): nat { if s.purged.None? then 0 else s.purged.value.index + 1 }

  /** The stored indexes are one contiguous run from just after the purge point up to `end`. */
  ghost predicate Shaped(s: Store, end: nat) {
    && Low(s) <= end
    && (forall i :: i in s.log <==> Low(s) <= i < end)
    && (forall i :: i in s.log ==> s.log[i].id.index == i)
  }

  /** Contiguous appends, truncations above the purge point, purges whose index does not move back. */
  predicate Legal(s: Store, end: nat, op: Op) {
    match op
    case Append(entries) => forall i :: 0 <= i < |entries| ==> entries[i].id.index == end + i
    case Truncate(id) => Low(s) <= id.index
    case Purge(id) => PurgeAllowed(s, id) && Low(s) <= id.index + 1
    case _ => true
  }

  function EndAfter(end: nat, op: Op): nat {
    match op
    case Append(entries) => end + |entries|
    case Truncate(id) => Min(end, id.index)
    case Purge(id) => Max(end, id.index + 1)
    case _ => end
  }

  function End(ops: seq<Op>): nat { if ops == [] then 0 else EndAfter(End(Front(ops)), Last(ops)) }

  predicate LegalRun(ops: seq<Op>) {
    ops != [] ==> LegalRun(Front(ops)) && Legal(DoAll(EMPTY, Front(ops)), End(Front(ops)), Last(ops))
  }

  lemma {:induction false} InsertShape(log: map<nat, Entry>, entries: seq<Entry>, end: nat)
    requires forall i :: 0 <= i < |entries| ==> entries[i].id.index == end + i
    ensures forall i :: i in Insert(log, entries) <==> i in log || end <= i < end + |entries|
    ensures forall i :: i in Insert(log, entries) ==>
              Insert(log, entries)[i] == if end <= i < end + |entries| then entries[i - end] else log[i]
  {
    if entries != [] {
      InsertShape(log, Front(entries), end);
    }
  }

  lemma LegalKeepsShape(s: Store, end: nat, op: Op)
    requires Shaped(s, end) && Legal(s, end, op)
    ensures Shaped(Do(s, op), EndAfter(end, op))
  {
    if op.Append? { InsertShape(s.log, op.entries, end); }
  }

  /** The reported last log id: the largest stored index, or the purge point. */
  ghost predicate IsLastId(s: Store, last: Option<LogId>) {
    if s.log == map[] then last == s.purged
    else exists i :: i in s.log && last == Some(s.log[i].id) && forall j :: j in s.log ==> j <= i
  }

  /** From legal operations the log is always one run after the purge point, and the last log id is the
      end of the run, or the purge point when the run is empty. */
  lemma {:induction false} LogShape(ops: seq<Op>, last: Option<LogId>)
    requires LegalRun(ops) && IsLastId(DoAll(EMPTY, ops), last)
    ensures Shaped(DoAll(EMPTY, ops), End(ops))
    ensures last.Some? <==> End(ops) > 0
    ensures last.Some? ==> last.value.index == End(ops) - 1
    ensures Low(DoAll(EMPTY, ops)) == End(ops) <==> DoAll(EMPTY, ops).log == map[]
  {
    LegalShape(ops);
    var s, end := DoAll(EMPTY, ops), End(ops);
    if s.log == map[] {
      assert forall i :: i !in s.log;
      assert Low(s) < end ==> Low(s) in s.log;
    } else {
      var i :| i in s.log && last == Some(s.log[i].id) && forall j :: j in s.log ==> j <= i;
      assert end - 1 in s.log;
    }
  }

  lemma {:induction false} LegalShape(ops: seq<Op>)
    requires LegalRun(ops)
    ensures Shaped(DoAll(EMPTY, ops), End(ops))
  {
    if ops != [] {
      LegalShape(Front(ops));
      LegalKeepsShape(DoAll(EMPTY, Front(ops)), End(Front(ops)), Last(ops));
    }
  }

  /** A shaped log stays one run under a purge that passes the assertion exactly when the purge index does
      not move back below the purge point, or there is nothing in the log. The assertion compares terms before indexes, so it does not
      exclude that; see PurgeAssertionIsTooWeak. */
  lemma PurgeKeepsShapeIff(s: Store, end: nat, id: LogId)
    requires Shaped(s, end) && PurgeAllowed(s, id)
    ensures (exists e: nat :: Shaped(Do(s, Purge(id)), e)) <==> Low(s) <= id.index + 1 || s.log == map[]
  {
    var after := Do(s, Purge(id));
    if Low(s) <= id.index + 1 {
      LegalKeepsShape(s, end, Purge(id));
    } else if s.log == map[] {
      assert after.log == map[];
      assert Shaped(after, id.index + 1);
    } else {
      assert Low(s) in s.log by {
        var i :| i in s.log;
      }
      assert Low(s) in after.log && id.index + 1 !in after.log;
      forall e: nat ensures !Shaped(after, e) {
        assert Shaped(after, e) ==> e > Low(s);
      }
    }
  }

  /** Purging up to (term 1, index 5) and then to (term 2, index 3) passes the assertion. */
  lemma PurgeAssertionIsTooWeak()
    ensures var s := DoAll(EMPTY, [Purge(LogId(1, 1, 5)), Append([Entry(LogId(1, 1, 6), "e")])]);
            && PurgeAllowed(s, LogId(2, 1, 3))
            && forall e: nat :: !Shaped(Do(s, Purge(LogId(2, 1, 3))), e)
  {
    var p, e6 := Purge(LogId(1, 1, 5)), Entry(LogId(1, 1, 6), "e");
    var ops := [p, Append([e6])];
    assert Front(ops) == [p] && Front([p]) == [];
    var s1 := DoAll(EMPTY, [p]);
    assert DoAll(EMPTY, []) == EMPTY;
    assert s1 == Do(EMPTY, p) && s1.log == DropThrough(EMPTY.log, 5) && s1.log == map[];
    assert Front([e6]) == [] && Insert(map[], []) == map[];
    assert Insert(map[], [e6]) == map[6 := e6];
    var s := DoAll(EMPTY, ops);
    assert s == Do(s1, Append([e6]));
    assert s.log == map[6 := e6] && 6 in s.log;
    assert Shaped(s, 7);
    PurgeKeepsShapeIff(s, 7, LogId(2, 1, 3));
  }

  // ----- The store object -----

  class WalLogStore {
    var inner: Store
    var wal: seq<Record>

    /** The record log determines the in-memory state. */
    ghost predicate Valid()
      reads this
    {
      Replay(EMPTY, wal) == inner
    }

    /** `WalLogStore::new` on a record log read back in full: `recover_from_wal`. */
    constructor (records: seq<Record>)
      ensures Valid() && wal == records && inner == Replay(EMPTY, records)
      ensures forall ops :: records == AllRecords(EMPTY, ops) ==> Holds(inner, ops)
    {
      inner := EMPTY;
      wal := records;
      new;
      var i := 0;
      while i < |records|
        invariant i <= |records| && wal == records && inner == Replay(EMPTY, records[..i])
      {
        match records[i] {
        case LogEntry(entry) => inner := inner.(log := inner.log[entry.id.index := entry]);
        case VoteSaved(vote) => inner := inner.(vote := Some(vote));
        case CommittedSaved(committed) => inner := inner.(committed := committed);
        case Purged(id) =>
          RemoveThrough(id.index);
          inner := inner.(purged := Some(id));
        case Truncated(id) => RemoveFrom(id.index);
        }
        assert Front(records[..i + 1]) == records[..i];
        i := i + 1;
      }
      assert records[..i] == records;
      forall ops | records == AllRecords(EMPTY, ops) ensures Holds(inner, ops) { RecoveredHolds(ops); }
    }

    /** Removes the stored keys up to `index` one by one. */
    method RemoveThrough(index: nat)
      modifies this`inner
      ensures inner == old(inner).(log := DropThrough(old(inner).log, index))
    {
      var keys := set i | i in inner.log && i <= index;
      while keys != {}
        invariant inner == old(inner).(log := inner.log)
        invariant keys <= inner.log.Keys <= old(inner).log.Keys
        invariant forall i :: i in keys ==> i <= index
        invariant forall i :: i in old(inner).log ==> (i in inner.log <==> i > index || i in keys)
        invariant forall i :: i in inner.log ==> inner.log[i] == old(inner).log[i]
        decreases |keys|
      {
        var i :| i in keys;
        inner := inner.(log := inner.log - {i});
        keys := keys - {i};
      }
      assert inner.log == DropThrough(old(inner).log, index);
    }

    /** Removes the stored keys from `index` on one by one. */
    method RemoveFrom(index: nat)
      modifies this`inner
      ensures inner == old(inner).(log := DropFrom(old(inner).log, index))
    {
      var keys := set i | i in inner.log && index <= i;
      while keys != {}
        invariant inner == old(inner).(log := inner.log)
        invariant keys <= inner.log.Keys <= old(inner).log.Keys
        invariant forall i :: i in keys ==> index <= i
        invariant forall i :: i in old(inner).log ==> (i in inner.log <==> i < index || i in keys)
        invariant forall i :: i in inner.log ==> inner.log[i] == old(inner).log[i]
        decreases |keys|
      {
        var i :| i in keys;
        inner := inner.(log := inner.log - {i});
        keys := keys - {i};
      }
      assert inner.log == DropFrom(old(inner).log, index);
    }

    method PersistRecord(r: Record)
      modifies this`wal
      ensures wal == old(wal) + [r]
    {
      wal := wal + [r];
    }

    method SaveVoteRecord(vote: Vote)
      requires Valid()
      modifies this
      ensures Valid() && inner == Do(old(inner), SaveVote(vote)) && wal == old(wal) + Records(old(inner), SaveVote(vote))
    {
      ghost var before := inner;
      inner := inner.(vote := Some(vote));
      PersistRecord(VoteSaved(vote));
      ReplayConcat(EMPTY, old(wal), Records(before, SaveVote(vote)));
      ReplayOp(before, SaveVote(vote));
    }

    method SaveCommittedRecord(committed: Option<LogId>)
      requires Valid()
      modifies this
      ensures Valid() && inner == Do(old(inner), SaveCommitted(committed))
      ensures wal == old(wal) + Records(old(inner), SaveCommitted(committed))
    {
      ghost var before := inner;
      inner := inner.(committed := committed);
      PersistRecord(CommittedSaved(committed));
      ReplayConcat(EMPTY, old(wal), Records(before, SaveCommitted(committed)));
      ReplayOp(before, SaveCommitted(committed));
    }

    method AppendEntries(entries: seq<Entry>)
      requires Valid()
      modifies this
      ensures Valid() && inner == Do(old(inner), Append(entries)) && wal == old(wal) + Records(old(inner), Append(entries))
    {
      ghost var before := inner;
      var i := 0;
      while i < |entries|
        invariant i <= |entries| && wal == old(wal)
        invariant inner == before.(log := Insert(before.log, entries[..i]))
      {
        inner := inner.(log := inner.log[entries[i].id.index := entries[i]]);
        assert Front(entries[..i + 1]) == entries[..i];
        i := i + 1;
      }
      assert entries[..i] == entries;
      i := 0;
      while i < |entries|
        invariant i <= |entries| && inner == Do(before, Append(entries))
        invariant wal == old(wal) + EntryRecords(entries)[..i]
      {
        PersistRecord(LogEntry(entries[i]));
        i := i + 1;
      }
      assert EntryRecords(entries)[..i] == EntryRecords(entries);
      ReplayConcat(EMPTY, old(wal), EntryRecords(entries));
      ReplayOp(before, Append(entries));
    }

    method TruncateFrom(id: LogId)
      requires Valid()
      modifies this
      ensures Valid() && inner == Do(old(inner), Truncate(id)) && wal == old(wal) + Records(old(inner), Truncate(id))
    {
      ghost var before := inner;
      RemoveFrom(id.index);
      PersistRecord(Truncated(id));
      ReplayConcat(EMPTY, old(wal), Records(before, Truncate(id)));
      ReplayOp(before, Truncate(id));
    }

    /** Returns false where the source panics; nothing has changed then. */
    method PurgeThrough(id: LogId) returns (ok: bool)
      requires Valid()
      modifies this
      ensures Valid() && inner == Do(old(inner), Purge(id)) && wal == old(wal) + Records(old(inner), Purge(id))
      ensures ok == PurgeAllowed(old(inner), id)
    {
      if !PurgeAllowed(inner, id) {
        return false;
      }
      ghost var before := inner;
      inner := inner.(purged := Some(id));
      RemoveThrough(id.index);
      PersistRecord(Purged(id));
      ReplayConcat(EMPTY, old(wal), Records(before, Purge(id)));
      ReplayOp(before, Purge(id));
      return true;
    }

    method LastLogId() returns (last: Option<LogId>)
      ensures IsLastId(inner, last)
    {
      last := None;
      var rest, best := inner.log.Keys, 0;
      while rest != {}
        invariant rest <= inner.log.Keys
        invariant last.None? ==> rest == inner.log.Keys
        invariant last.Some? ==> best in inner.log && last == Some(inner.log[best].id)
        invariant forall j :: j in inner.log && j !in rest ==> last.Some? && j <= best
        decreases |rest|
      {
        var i :| i in rest;
        if last.None? || best < i {
          best, last := i, Some(inner.log[i].id);
        }
        rest := rest - {i};
      }
      if last.None? {
        assert inner.log.Keys == {};
        last := inner.purged;
      }
    }
  }
}
