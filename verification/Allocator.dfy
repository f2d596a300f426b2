/**
 The block allocator over rolling files and the counters that decide when a file may be deleted
 (src/wal/runtime/allocator.rs, src/wal/config.rs, src/wal/paths.rs). One allocator, and each tracker
 call taken as one step.
 */
module Allocator {
  import opened Basics
  import opened Blocks

  const BLOCK_SIZE: nat := 10 * 1024 * 1024
  const BLOCKS_PER_FILE: nat := 100
  const MAX_FILE_SIZE: nat := BLOCK_SIZE * BLOCKS_PER_FILE
  const MAX_ALLOC: nat := 1024 * 1024 * 1024
  const TWO_16: nat := 65536

  /** The four counters of a file; the first three are u16. */
  datatype FileState = FileState(locked: nat, checkpointed: nat, total: nat, full: bool)

  datatype BlockState = BlockState(checkpointed: bool, file: nat)

  datatype State = State(
    nextId: nat, file: nat, offset: nat,  // the next block: its id, file (named by a number) and offset
    clock: nat,                           // the last file name given out (LAST_MILLIS)
    blocks: map<nat, BlockState>,
    files: map<nat, FileState>,
    queue: seq<nat>,                      // files sent for deletion
    handed: seq<Block>,                   // history: blocks handed out
    unlocked: set<nat>,                   // history: registered blocks unlocked so far
    calls: map<nat, nat>)                 // history: checkpoint calls for registered blocks, by file

  // ----- File names -----

  /** `now_millis_str`: the clock in milliseconds, moved past the last name given out. */
  function Millis(system: nat, last: nat): nat {
    var now := Min(system, TWO_64 - 1);
    if now <= last then Min(last + 1, TWO_64 - 1) else now
  }

  /** A name is the clock where that is ahead of the last one, and the next number otherwise; it is new exactly as
      long as the last one was not the largest u64. */
  lemma MillisFreshIff(system: nat, last: nat)
    requires last < TWO_64
    ensures last <= Millis(system, last) < TWO_64
    ensures Millis(system, last) > last <==> last < TWO_64 - 1
    ensures last < system < TWO_64 ==> Millis(system, last) == system
    ensures system <= last < TWO_64 - 1 ==> Millis(system, last) == last + 1
  {
  }

  // ----- Tracker calls -----

  function RegisterFile(s: State, f: nat): State {
    if f in s.files then s else s.(files := s.files[f := FileState(0, 0, 0, false)])
  }

  function FlushCheck(s: State, f: nat): State {
    if f in s.files && s.files[f].full && s.files[f].locked == 0 && s.files[f].total > 0
       && s.files[f].checkpointed >= s.files[f].total
    then s.(queue := s.queue + [f]) else s
  }

  function SetFull(s: State, f: nat): State {
    var r := RegisterFile(s, f);
    FlushCheck(r.(files := r.files[f := r.files[f].(full := true)]), f)
  }

  function AddBlock(s: State, f: nat): State {
    var r := RegisterFile(s, f);
    r.(files := r.files[f := r.files[f].(total := (r.files[f].total + 1) % TWO_16)])
  }

  function RegisterBlock(s: State, id: nat, f: nat): State {
    if id in s.blocks then s else s.(blocks := s.blocks[id := BlockState(false, f)])
  }

  function SetLocked(s: State, id: nat): State {
    if id in s.blocks && s.blocks[id].file in s.files then
      var f := s.blocks[id].file;
      s.(files := s.files[f := s.files[f].(locked := (s.files[f].locked + 1) % TWO_16)])
    else s
  }

  /** Registering a block before it is handed out. */
  function Register(s: State, b: Block): State {
    SetLocked(AddBlock(RegisterFile(RegisterBlock(s, b.id, b.file), b.file), b.file), b.id)
  }

  function SetUnlocked(s: State, id: nat): State {
    if id !in s.blocks then s
    else
      var f := s.blocks[id].file;
      var files := if f in s.files
                   then s.files[f := s.files[f].(locked := (s.files[f].locked + TWO_16 - 1) % TWO_16)] else s.files;
      FlushCheck(s.(files := files, unlocked := s.unlocked + {id}), f)
  }

  function Calls(s: State, f: nat): nat { Get(s.calls, f, 0) }

  function SetCheckpointed(s: State, id: nat): State {
    if id !in s.blocks then s
    else
      var f := s.blocks[id].file;
      var files := if f in s.files
                   then s.files[f := s.files[f].(checkpointed := (s.files[f].checkpointed + 1) % TWO_16)] else s.files;
      FlushCheck(s.(blocks := s.blocks[id := BlockState(true, f)], files := files, calls := s.calls[f := Calls(s, f) + 1]), f)
  }

  // ----- Allocation -----

  function NewFile(s: State, system: nat): State {
    var name := Millis(system, s.clock);
    s.(file := name, clock := name, offset := 0)
  }

  /** Handing out `size` bytes at the current position. */
  function HandOut(s: State, size: nat): State {
    var b := Block(s.nextId, s.file, s.offset, size);
    Register(s, b).(offset := s.offset + size, nextId := s.nextId + 1, handed := s.handed + [b])
  }

  function GetNext(s: State, system: nat): State {
    HandOut(if s.offset >= MAX_FILE_SIZE then NewFile(SetFull(s, s.file), system) else s, BLOCK_SIZE)
  }

  function Rounded(want: nat): nat { (want + BLOCK_SIZE - 1) / BLOCK_SIZE * BLOCK_SIZE }

  function Alloc(s: State, want: nat, system: nat): State {
    if want == 0 || want > MAX_ALLOC then s
    else
      var size := Rounded(want);
      HandOut(if s.offset + size > MAX_FILE_SIZE then SetFull(NewFile(s, system), s.file) else s, size)
  }

  datatype Event =
    | TakeDefault(system: nat)
    | TakeSized(want: nat, system: nat)
    | FastForward(id: nat)
    | Unlock(id: nat)
    | Checkpoint(id: nat)

  function Step(s: State, e: Event): State {
    match e
    case TakeDefault(system) => GetNext(s, system)
    case TakeSized(want, system) => Alloc(s, want, system)
    case FastForward(id) => s.(nextId := Max(s.nextId, id))
    case Unlock(id) => SetUnlocked(s, id)
    case Checkpoint(id) => SetCheckpointed(s, id)
  }

  function Start(system: nat): State {
    var name := Millis(system, 0);
    State(1, name, 0, name, map[], map[], [], [], {}, map[])
  }

  function Run(s: State, events: seq<Event>): State {
    if events == [] then s else Step(Run(s, Front(events)), Last(events))
  }

  /** File names have not run out, a block is unlocked at most once, and no file's u16 counter of checkpoint
      calls wraps. */
  predicate Legal(s: State, e: Event) {
    match e
    case Unlock(id) => id !in s.unlocked
    case Checkpoint(id) => id in s.blocks ==> Calls(s, s.blocks[id].file) + 1 < TWO_16
    case _ => s.clock < TWO_64 - 1
  }

  predicate LegalRun(s: State, events: seq<Event>) {
    events != [] ==> LegalRun(s, Front(events)) && Legal(Run(s, Front(events)), Last(events))
  }

  /** As before, and a block is checkpointed at most once too. */
  predicate Once(s: State, e: Event) {
    match e
    case Unlock(id) => id !in s.unlocked
    case Checkpoint(id) => id in s.blocks ==> !s.blocks[id].checkpointed
    case _ => s.clock < TWO_64 - 1
  }

  predicate OnceRun(s: State, events: seq<Event>) {
    events != [] ==> OnceRun(s, Front(events)) && Once(Run(s, Front(events)), Last(events))
  }

  // ----- What the counters mean -----

  function BlocksOf(s: State, f: nat): set<nat> { set id | id in s.blocks && s.blocks[id].file == f }

  function LockedOf(s: State, f: nat): set<nat> { BlocksOf(s, f) - s.unlocked }

  function CheckpointedOf(s: State, f: nat): set<nat> { set id | id in BlocksOf(s, f) && s.blocks[id].checkpointed }

  /** The file is fully allocated and all its blocks, at least one, are unlocked and checkpointed. */
  ghost predicate Reclaimable(s: State, f: nat) {
    && f in s.files && s.files[f].full && BlocksOf(s, f) != {}
    && forall id :: id in BlocksOf(s, f) ==> id in s.unlocked && s.blocks[id].checkpointed
  }

  /** The file is fully allocated and not empty, its blocks are unlocked, and as many checkpoint calls have
      come for it as it has blocks. */
  ghost predicate Ready(s: State, f: nat) {
    f in s.files && s.files[f].full && BlocksOf(s, f) != {} && LockedOf(s, f) == {} && Calls(s, f) >= |BlocksOf(s, f)|
  }

  ghost predicate Counted(s: State, f: nat) {
    if f !in s.files then BlocksOf(s, f) == {} && Calls(s, f) == 0
    else
      && s.files[f].total == |BlocksOf(s, f)| <= 103
      && s.files[f].locked == |LockedOf(s, f)|
      && s.files[f].checkpointed == Calls(s, f) < TWO_16
  }

  /** Blocks handed out: increasing ids, registered under their file, disjoint within a file. */
  ghost predicate HandedOk(s: State) {
    && (forall i :: 0 <= i < |s.handed| ==>
          && s.handed[i].id < s.nextId && s.handed[i].file <= s.clock
          && (s.handed[i].file == s.file ==> s.handed[i].offset + s.handed[i].limit <= s.offset))
    && (forall i, j :: 0 <= i < j < |s.handed| ==>
          && s.handed[i].id < s.handed[j].id
          && (s.handed[i].file == s.handed[j].file ==> s.handed[i].offset + s.handed[i].limit <= s.handed[j].offset))
  }

  ghost predicate TrackersOk(s: State) {
    && (forall id :: id in s.blocks ==> id < s.nextId && s.blocks[id].file <= s.clock)
    && s.unlocked <= s.blocks.Keys
    && (forall f :: f in s.files ==> f <= s.clock && (s.files[f].full <==> f != s.file))
    && (forall f :: Counted(s, f))
    && |BlocksOf(s, s.file)| * BLOCK_SIZE <= s.offset
  }

  ghost predicate QueueOk(s: State) { forall f :: f in s.queue <==> Ready(s, f) }

  ghost predicate Inv(s: State) {
    && s.file <= s.clock && s.offset % BLOCK_SIZE == 0 && s.offset <= 103 * BLOCK_SIZE
    && HandedOk(s) && TrackersOk(s) && QueueOk(s)
  }

  lemma SameSize<T>(a: set<T>, b: set<T>)
    requires a <= b && |b| <= |a|
    ensures a == b
  {
    assert |b - a| == |b| - |a|;
    assert b - a == {};
  }

  /** A file whose blocks, calls and counters are as before counts as before. */
  lemma Untouched(s: State, t: State, g: nat)
    requires BlocksOf(t, g) == BlocksOf(s, g) && LockedOf(t, g) == LockedOf(s, g) && Calls(t, g) == Calls(s, g)
    requires (g in t.files <==> g in s.files) && (g in s.files ==> t.files[g] == s.files[g])
    ensures Counted(t, g) <==> Counted(s, g)
    ensures Ready(t, g) <==> Ready(s, g)
  {
  }

  /** After a change that concerns file `f` alone, and cannot make it less ready, the flush check restores the
      queue. */
  lemma FlushRestores(before: State, s: State, f: nat)
    requires QueueOk(before) && s.queue == before.queue && (f in before.queue ==> Ready(s, f))
    requires f in s.files && Counted(s, f)
    requires forall g :: g != f ==> (Ready(s, g) <==> Ready(before, g))
    ensures QueueOk(FlushCheck(s, f))
  {
    var after := FlushCheck(s, f);
    forall g ensures g in after.queue <==> Ready(after, g) {
      assert BlocksOf(after, g) == BlocksOf(s, g) && LockedOf(after, g) == LockedOf(s, g);
      assert Ready(after, g) <==> Ready(s, g);
    }
  }

  // ----- Every event keeps the invariant -----

  /** The state after an unlock, before the flush check. */
  function Unlocking(s: State, id: nat, f: nat): State
    requires f in s.files
  {
    s.(files := s.files[f := s.files[f].(locked := (s.files[f].locked + TWO_16 - 1) % TWO_16)], unlocked := s.unlocked + {id})
  }

  lemma UnlockCountsAt(s: State, id: nat, f: nat, g: nat)
    requires Counted(s, f) && Counted(s, g) && f in s.files && id in BlocksOf(s, f) && id !in s.unlocked
    ensures BlocksOf(Unlocking(s, id, f), g) == BlocksOf(s, g) && Counted(Unlocking(s, id, f), g)
    ensures g != f ==> (Ready(Unlocking(s, id, f), g) <==> Ready(s, g))
  {
    var t := Unlocking(s, id, f);
    assert BlocksOf(t, g) == BlocksOf(s, g);
    if g == f {
      SubsetSize(LockedOf(s, f), BlocksOf(s, f));
      assert id in LockedOf(s, f) && LockedOf(t, f) == LockedOf(s, f) - {id};
    } else {
      assert LockedOf(t, g) == LockedOf(s, g);
      Untouched(s, t, g);
    }
  }

  lemma UnlockCounts(s: State, id: nat, f: nat)
    requires Inv(s) && id in s.blocks && id !in s.unlocked && f == s.blocks[id].file
    ensures f in s.files && f !in s.queue
    ensures forall g :: BlocksOf(Unlocking(s, id, f), g) == BlocksOf(s, g)
    ensures forall g :: Counted(Unlocking(s, id, f), g)
    ensures forall g :: g != f ==> (Ready(Unlocking(s, id, f), g) <==> Ready(s, g))
  {
    assert Counted(s, f) && id in BlocksOf(s, f);
    assert id in LockedOf(s, f) && !Ready(s, f);
    forall g
      ensures Counted(Unlocking(s, id, f), g) && BlocksOf(Unlocking(s, id, f), g) == BlocksOf(s, g)
      ensures g != f ==> (Ready(Unlocking(s, id, f), g) <==> Ready(s, g))
    {
      assert Counted(s, g);
      UnlockCountsAt(s, id, f, g);
    }
  }

  lemma SubsetSize<T>(a: set<T>, b: set<T>)
    requires a <= b
    ensures |a| <= |b|
  {
    assert |b - a| == |b| - |a|;
  }

  lemma UnlockKeeps(s: State, id: nat)
    requires Inv(s) && Legal(s, Unlock(id))
    ensures Inv(SetUnlocked(s, id))
  {
    if id in s.blocks {
      var f := s.blocks[id].file;
      UnlockCounts(s, id, f);
      FlushRestores(s, Unlocking(s, id, f), f);
      assert SetUnlocked(s, id) == FlushCheck(Unlocking(s, id, f), f);
      QueueOnly(s, Unlocking(s, id, f), f);
    }
  }

  /** The flush check changes the queue only. */
  lemma QueueOnly(s: State, t: State, f: nat)
    requires Inv(s)
    requires t == s.(blocks := t.blocks, files := t.files, unlocked := t.unlocked, calls := t.calls)
    requires t.blocks.Keys == s.blocks.Keys && t.files.Keys == s.files.Keys && t.unlocked <= t.blocks.Keys
    requires forall id :: id in t.blocks ==> t.blocks[id].file == s.blocks[id].file
    requires forall g :: g in t.files ==> t.files[g].full == s.files[g].full
    requires (forall g :: Counted(t, g)) && (forall g :: BlocksOf(t, g) == BlocksOf(s, g))
    requires QueueOk(FlushCheck(t, f))
    ensures Inv(FlushCheck(t, f))
  {
    var u := FlushCheck(t, f);
    forall g ensures Counted(u, g) {
      assert Counted(t, g);
      FlushCountedAt(t, f, g);
    }
    assert BlocksOf(u, u.file) == BlocksOf(t, t.file);
  }

  /** The state after a checkpoint, before the flush check. */
  function Checkpointing(s: State, id: nat, f: nat): State
    requires f in s.files
  {
    s.(blocks := s.blocks[id := BlockState(true, f)],
       files := s.files[f := s.files[f].(checkpointed := (s.files[f].checkpointed + 1) % TWO_16)],
       calls := s.calls[f := Calls(s, f) + 1])
  }

  lemma CheckpointSets(s: State, id: nat, f: nat, g: nat)
    requires f in s.files && id in BlocksOf(s, f)
    ensures BlocksOf(Checkpointing(s, id, f), g) == BlocksOf(s, g) && LockedOf(Checkpointing(s, id, f), g) == LockedOf(s, g)
    ensures Calls(Checkpointing(s, id, f), g) == Calls(s, g) + if g == f then 1 else 0
  {
    var t := Checkpointing(s, id, f);
    assert BlocksOf(t, g) == BlocksOf(s, g);
    assert LockedOf(t, g) == LockedOf(s, g);
  }

  lemma CheckpointCountsAt(s: State, id: nat, f: nat, g: nat)
    requires Counted(s, g) && f in s.files && id in BlocksOf(s, f) && Calls(s, f) + 1 < TWO_16
    ensures Counted(Checkpointing(s, id, f), g) && (Ready(s, g) ==> Ready(Checkpointing(s, id, f), g))
    ensures g != f ==> (Ready(Checkpointing(s, id, f), g) <==> Ready(s, g))
  {
    CheckpointSets(s, id, f, g);
    if g != f { Untouched(s, Checkpointing(s, id, f), g); }
  }

  lemma CheckpointCounts(s: State, id: nat, f: nat)
    requires Inv(s) && id in s.blocks && f == s.blocks[id].file && Calls(s, f) + 1 < TWO_16
    ensures f in s.files
    ensures forall g :: BlocksOf(Checkpointing(s, id, f), g) == BlocksOf(s, g)
    ensures forall g :: Counted(Checkpointing(s, id, f), g)
    ensures forall g :: g != f ==> (Ready(Checkpointing(s, id, f), g) <==> Ready(s, g))
    ensures f in s.queue ==> Ready(Checkpointing(s, id, f), f)
  {
    assert Counted(s, f) && id in BlocksOf(s, f);
    forall g
      ensures Counted(Checkpointing(s, id, f), g) && BlocksOf(Checkpointing(s, id, f), g) == BlocksOf(s, g)
      ensures g != f ==> (Ready(Checkpointing(s, id, f), g) <==> Ready(s, g))
    {
      assert Counted(s, g);
      CheckpointSets(s, id, f, g);
      CheckpointCountsAt(s, id, f, g);
    }
    CheckpointCountsAt(s, id, f, f);
  }

  lemma CheckpointFrame(s: State, id: nat, f: nat)
    requires f in s.files && id in s.blocks && f == s.blocks[id].file
    ensures var t := Checkpointing(s, id, f);
            && t == s.(blocks := t.blocks, files := t.files, calls := t.calls)
            && t.blocks.Keys == s.blocks.Keys && t.files.Keys == s.files.Keys
            && (forall i :: i in t.blocks ==> t.blocks[i].file == s.blocks[i].file)
            && (forall g :: g in t.files ==> t.files[g].full == s.files[g].full)
  {
  }

  lemma CheckpointKeeps(s: State, id: nat)
    requires Inv(s) && Legal(s, Checkpoint(id))
    ensures Inv(SetCheckpointed(s, id))
  {
    if id in s.blocks {
      var f := s.blocks[id].file;
      CheckpointCounts(s, id, f);
      FlushRestores(s, Checkpointing(s, id, f), f);
      assert SetCheckpointed(s, id) == FlushCheck(Checkpointing(s, id, f), f);
      CheckpointFrame(s, id, f);
      QueueOnly(s, Checkpointing(s, id, f), f);
    }
  }

  /** Closing the current file and opening a new one, in either order of the two calls. */
  function Rolled(s: State, system: nat): State { NewFile(SetFull(s, s.file), system) }

  lemma RolledEitherWay(s: State, system: nat)
    ensures SetFull(NewFile(s, system), s.file) == Rolled(s, system)
  {
  }

  /** The state with the current file marked full, before the flush check. */
  function Closing(s: State): State {
    var r := RegisterFile(s, s.file);
    r.(files := r.files[s.file := r.files[s.file].(full := true)])
  }

  lemma ClosingCountsAt(s: State, g: nat)
    requires Counted(s, g)
    ensures Counted(Closing(s), g) && (g != s.file ==> (Ready(Closing(s), g) <==> Ready(s, g)))
  {
    var t := Closing(s);
    assert BlocksOf(t, g) == BlocksOf(s, g) && LockedOf(t, g) == LockedOf(s, g);
    if g != s.file { Untouched(s, t, g); }
  }

  lemma RolledKeeps(s: State, system: nat)
    requires Inv(s) && s.clock < TWO_64 - 1
    ensures Inv(Rolled(s, system)) && Rolled(s, system).file !in Rolled(s, system).files && Rolled(s, system).offset == 0
    ensures Rolled(s, system).nextId == s.nextId && Rolled(s, system).handed == s.handed
  {
    var t := Closing(s);
    forall g ensures Counted(t, g) && (g != s.file ==> (Ready(t, g) <==> Ready(s, g))) {
      assert Counted(s, g);
      ClosingCountsAt(s, g);
    }
    assert s.file !in s.queue by { assert !Ready(s, s.file); }
    FlushRestores(s, t, s.file);
    assert Rolled(s, system) == NewFile(FlushCheck(t, s.file), system);
    RolledCounts(s, t, s.file, system);
  }

  /** Opening a new file changes no count. */
  lemma NewFileAt(q: State, system: nat, g: nat)
    ensures BlocksOf(NewFile(q, system), g) == BlocksOf(q, g)
    ensures Counted(NewFile(q, system), g) <==> Counted(q, g)
    ensures Ready(NewFile(q, system), g) <==> Ready(q, g)
  {
    var u := NewFile(q, system);
    assert BlocksOf(u, g) == BlocksOf(q, g);
    assert LockedOf(u, g) == LockedOf(q, g);
    Untouched(q, u, g);
  }

  lemma FlushCountedAt(t: State, f: nat, g: nat)
    ensures Counted(FlushCheck(t, f), g) <==> Counted(t, g)
  {
    var q := FlushCheck(t, f);
    assert BlocksOf(q, g) == BlocksOf(t, g);
    assert LockedOf(q, g) == LockedOf(t, g);
    Untouched(t, q, g);
  }

  lemma RolledCounts(s: State, t: State, f: nat, system: nat)
    requires Inv(s) && s.clock < TWO_64 - 1 && f == s.file
    requires t == s.(files := t.files) && t.files.Keys == s.files.Keys + {f}
    requires forall g :: g in t.files ==> t.files[g].full
    requires (forall g :: Counted(t, g)) && QueueOk(FlushCheck(t, f))
    ensures Inv(NewFile(FlushCheck(t, f), system)) && NewFile(FlushCheck(t, f), system).file !in t.files
  {
    var q := FlushCheck(t, f);
    var u := NewFile(q, system);
    MillisFreshIff(system, s.clock);
    forall g ensures Counted(u, g) && (Ready(u, g) <==> Ready(q, g)) {
      assert Counted(t, g);
      FlushCountedAt(t, f, g);
      NewFileAt(q, system, g);
    }
    assert BlocksOf(u, u.file) == {};
  }

  /** What registering a fresh block does to the trackers. */
  lemma RegisterEffect(s: State, b: Block)
    requires b.id !in s.blocks
    requires b.file in s.files ==> s.files[b.file].total + 1 < TWO_16 && s.files[b.file].locked + 1 < TWO_16
    ensures var fs := if b.file in s.files then s.files[b.file] else FileState(0, 0, 0, false);
            Register(s, b) == s.(blocks := s.blocks[b.id := BlockState(false, b.file)],
                                 files := s.files[b.file := fs.(locked := fs.locked + 1, total := fs.total + 1)])
  {
  }

  /** The state after handing out a fresh block, spelled out. */
  function WithBlock(s: State, b: Block): State {
    var fs := if b.file in s.files then s.files[b.file] else FileState(0, 0, 0, false);
    s.(blocks := s.blocks[b.id := BlockState(false, b.file)],
       files := s.files[b.file := fs.(locked := fs.locked + 1, total := fs.total + 1)],
       offset := s.offset + b.limit, nextId := s.nextId + 1, handed := s.handed + [b])
  }

  lemma HandOutKeeps(s: State, size: nat)
    requires Inv(s) && size > 0 && size % BLOCK_SIZE == 0 && s.offset + size <= 103 * BLOCK_SIZE
    ensures HandOut(s, size) == WithBlock(s, Block(s.nextId, s.file, s.offset, size))
    ensures Inv(HandOut(s, size))
  {
    var b := Block(s.nextId, s.file, s.offset, size);
    HandOutIs(s, size);
    FreshBlockTracked(s, b);
    FreshBlockQueue(s, b);
  }

  lemma HandOutIs(s: State, size: nat)
    requires Counted(s, s.file) && s.nextId !in s.blocks
    ensures HandOut(s, size) == WithBlock(s, Block(s.nextId, s.file, s.offset, size))
  {
    SubsetSize(LockedOf(s, s.file), BlocksOf(s, s.file));
    RegisterEffect(s, Block(s.nextId, s.file, s.offset, size));
  }

  lemma FreshBlockSets(s: State, b: Block, g: nat)
    requires b.id !in s.blocks && b.id !in s.unlocked
    ensures var t := WithBlock(s, b);
            var own := if g == b.file then {b.id} else {};
            && BlocksOf(t, g) == BlocksOf(s, g) + own
            && LockedOf(t, g) == LockedOf(s, g) + own
            && Calls(t, g) == Calls(s, g)
            && b.id !in BlocksOf(s, g)
  {
    var t := WithBlock(s, b);
    var own := if g == b.file then {b.id} else {};
    assert BlocksOf(t, g) == BlocksOf(s, g) + own;
    assert LockedOf(t, g) == LockedOf(s, g) + own;
  }

  lemma FreshBlockCounted(s: State, b: Block, g: nat)
    requires Counted(s, g) && b.id !in s.blocks && b.id !in s.unlocked
    requires |BlocksOf(s, b.file)| < 103
    ensures Counted(WithBlock(s, b), g)
  {
    FreshBlockSets(s, b, g);
    if g == b.file {
      var t := WithBlock(s, b);
      assert |BlocksOf(t, g)| == |BlocksOf(s, g)| + 1 && |LockedOf(t, g)| == |LockedOf(s, g)| + 1;
      assert g !in s.files ==> BlocksOf(s, g) == {} && LockedOf(s, g) == {};
    } else {
      Untouched(s, WithBlock(s, b), g);
    }
  }

  lemma FreshBlockTracked(s: State, b: Block)
    requires Inv(s) && b.id == s.nextId && b.file == s.file && b.limit > 0 && b.limit % BLOCK_SIZE == 0
    requires s.offset + b.limit <= 103 * BLOCK_SIZE
    ensures TrackersOk(WithBlock(s, b))
  {
    var t := WithBlock(s, b);
    assert b.id !in s.blocks && b.id !in s.unlocked;
    FreshBlockSets(s, b, b.file);
    FreshBlockRoom(|BlocksOf(s, b.file)|, s.offset, b.limit);
    FreshBlocksCounted(s, b);
    assert |BlocksOf(t, t.file)| == |BlocksOf(s, s.file)| + 1;
  }

  lemma FreshBlocksCounted(s: State, b: Block)
    requires (forall g :: Counted(s, g)) && b.id !in s.blocks && b.id !in s.unlocked && |BlocksOf(s, b.file)| < 103
    ensures forall g :: Counted(WithBlock(s, b), g)
  {
    forall g ensures Counted(WithBlock(s, b), g) {
      assert Counted(s, g);
      FreshBlockCounted(s, b, g);
    }
  }

  /** A block takes at least one unit of its file. */
  lemma FreshBlockRoom(n: nat, offset: nat, limit: nat)
    requires n * BLOCK_SIZE <= offset && limit > 0 && limit % BLOCK_SIZE == 0 && offset + limit <= 103 * BLOCK_SIZE
    ensures (n + 1) * BLOCK_SIZE <= offset + limit && n + 1 <= 103
  {
    assert limit >= BLOCK_SIZE;
  }

  lemma FreshBlockQueue(s: State, b: Block)
    requires Inv(s) && b.id == s.nextId && b.file == s.file
    ensures QueueOk(WithBlock(s, b))
  {
    var t := WithBlock(s, b);
    forall g ensures g in t.queue <==> Ready(t, g) {
      FreshBlockSets(s, b, g);
      if g != b.file { Untouched(s, t, g); }
    }
  }

  lemma RoundedSize(want: nat)
    requires 0 < want <= MAX_ALLOC
    ensures Rounded(want) % BLOCK_SIZE == 0 && want <= Rounded(want) < want + BLOCK_SIZE
    ensures 0 < Rounded(want) <= 103 * BLOCK_SIZE
    ensures Rounded(want) <= MAX_FILE_SIZE <==> want <= MAX_FILE_SIZE
  {
  }

  lemma StepKeeps(s: State, e: Event)
    requires Inv(s) && Legal(s, e)
    ensures Inv(Step(s, e))
  {
    match e
    case TakeDefault(system) =>
      if s.offset >= MAX_FILE_SIZE {
        RolledKeeps(s, system);
        HandOutKeeps(Rolled(s, system), BLOCK_SIZE);
      } else {
        HandOutKeeps(s, BLOCK_SIZE);
      }
    case TakeSized(want, system) =>
      if 0 < want <= MAX_ALLOC {
        RoundedSize(want);
        if s.offset + Rounded(want) > MAX_FILE_SIZE {
          RolledEitherWay(s, system);
          RolledKeeps(s, system);
          HandOutKeeps(Rolled(s, system), Rounded(want));
        } else {
          HandOutKeeps(s, Rounded(want));
        }
      }
    case FastForward(id) => FastForwardKeeps(s, id);
    case Unlock(id) => UnlockKeeps(s, id);
    case Checkpoint(id) => CheckpointKeeps(s, id);
  }

  lemma FastForwardKeeps(s: State, id: nat)
    requires Inv(s)
    ensures Inv(Step(s, FastForward(id)))
  {
    var t := Step(s, FastForward(id));
    forall g ensures Counted(t, g) && (Ready(t, g) <==> Ready(s, g)) {
      assert Counted(s, g);
      assert BlocksOf(t, g) == BlocksOf(s, g) && LockedOf(t, g) == LockedOf(s, g);
      Untouched(s, t, g);
    }
    assert BlocksOf(t, t.file) == BlocksOf(s, s.file);
  }

  lemma {:induction false} RunInv(system: nat, events: seq<Event>)
    requires LegalRun(Start(system), events)
    ensures Inv(Run(Start(system), events))
  {
    if events != [] {
      RunInv(system, Front(events));
      StepKeeps(Run(Start(system), Front(events)), Last(events));
    }
  }

  // ----- Reclamation -----

  /** The checkpoint calls of a run for blocks of a file. */
  function CheckpointCalls(s: State, events: seq<Event>, f: nat): nat {
    if events == [] then 0
    else
      var before, e := Run(s, Front(events)), Last(events);
      CheckpointCalls(s, Front(events), f)
      + if e.Checkpoint? && e.id in before.blocks && before.blocks[e.id].file == f then 1 else 0
  }

  lemma AllocationCallsNothing(s: State, size: nat, system: nat)
    ensures HandOut(s, size).calls == s.calls
    ensures NewFile(SetFull(s, s.file), system).calls == s.calls && SetFull(NewFile(s, system), s.file).calls == s.calls
  {
  }

  lemma StepCalls(s: State, e: Event, f: nat)
    ensures Calls(Step(s, e), f)
            == Calls(s, f) + if e.Checkpoint? && e.id in s.blocks && s.blocks[e.id].file == f then 1 else 0
  {
    if e.TakeDefault? {
      AllocationCallsNothing(s, BLOCK_SIZE, e.system);
      AllocationCallsNothing(NewFile(SetFull(s, s.file), e.system), BLOCK_SIZE, e.system);
    } else if e.TakeSized? {
      SizedCallsNothing(s, e.want, e.system);
    }
  }

  lemma SizedCallsNothing(s: State, want: nat, system: nat)
    ensures Alloc(s, want, system).calls == s.calls
  {
    if 0 < want <= MAX_ALLOC {
      AllocationCallsNothing(s, Rounded(want), system);
      AllocationCallsNothing(SetFull(NewFile(s, system), s.file), Rounded(want), system);
    }
  }

  lemma {:induction false} CallsCounted(system: nat, events: seq<Event>, f: nat)
    ensures Calls(Run(Start(system), events), f) == CheckpointCalls(Start(system), events, f)
  {
    if events != [] {
      CallsCounted(system, Front(events), f);
      StepCalls(Run(Start(system), Front(events)), Last(events), f);
    }
  }

  /** In every legal run a file has been sent for deletion exactly when it is fully allocated and not empty,
      its blocks are unlocked, and there were as many checkpoint calls for it as it has blocks. Whose blocks
      the calls were for is not looked at. */
  lemma QueuedIff(system: nat, events: seq<Event>, f: nat)
    requires LegalRun(Start(system), events)
    ensures var s := Run(Start(system), events);
            f in s.queue <==> && f in s.files && s.files[f].full && BlocksOf(s, f) != {} && BlocksOf(s, f) <= s.unlocked
                              && CheckpointCalls(Start(system), events, f) >= |BlocksOf(s, f)|
  {
    RunInv(system, events);
    CallsCounted(system, events, f);
    QueuedWhenReady(Run(Start(system), events), f);
  }

  lemma QueuedWhenReady(s: State, f: nat)
    requires Inv(s)
    ensures f in s.queue <==> && f in s.files && s.files[f].full && BlocksOf(s, f) != {} && BlocksOf(s, f) <= s.unlocked
                              && Calls(s, f) >= |BlocksOf(s, f)|
  {
    assert f in s.queue <==> Ready(s, f);
    NoneLocked(BlocksOf(s, f), s.unlocked);
  }

  lemma NoneLocked<T>(blocks: set<T>, unlocked: set<T>)
    ensures blocks - unlocked == {} <==> blocks <= unlocked
  {
    forall id | id in blocks ensures id in blocks - unlocked <==> id !in unlocked { }
  }

  /** What an allocation does: one fresh block of an open file; the file before it may be closed and queued. */
  ghost predicate Taken(s: State, t: State) {
    && s.nextId !in s.blocks && t.blocks == s.blocks[s.nextId := BlockState(false, t.file)]
    && t.calls == s.calls && t.unlocked == s.unlocked
    && s.file !in s.queue && (t.queue == s.queue || t.queue == s.queue + [s.file])
    && t.file !in s.queue && exists b: Block :: t.handed == s.handed + [b] && b.file == t.file
  }

  lemma TakenFrom(s: State, size: nat)
    requires Inv(s) && size > 0 && size % BLOCK_SIZE == 0 && s.offset + size <= 103 * BLOCK_SIZE
    ensures Taken(s, HandOut(s, size))
  {
    HandOutKeeps(s, size);
    assert !Ready(s, s.file);
    assert HandOut(s, size).handed == s.handed + [Block(s.nextId, s.file, s.offset, size)];
  }

  lemma TakenRolled(s: State, system: nat, size: nat)
    requires Inv(s) && s.clock < TWO_64 - 1 && 0 < size <= 103 * BLOCK_SIZE && size % BLOCK_SIZE == 0
    ensures Taken(s, HandOut(Rolled(s, system), size))
  {
    RolledKeeps(s, system);
    var r := Rolled(s, system);
    HandOutKeeps(r, size);
    assert !Ready(s, s.file);
    assert HandOut(r, size).handed == s.handed + [Block(r.nextId, r.file, r.offset, size)];
  }

  predicate Takes(e: Event) { e.TakeDefault? || (e.TakeSized? && 0 < e.want <= MAX_ALLOC) }

  lemma TakeShape(s: State, e: Event)
    requires Inv(s) && s.clock < TWO_64 - 1 && Takes(e)
    ensures Taken(s, Step(s, e))
  {
    if e.TakeDefault? {
      if s.offset >= MAX_FILE_SIZE { TakenRolled(s, e.system, BLOCK_SIZE); } else { TakenFrom(s, BLOCK_SIZE); }
    } else {
      RoundedSize(e.want);
      if s.offset + Rounded(e.want) > MAX_FILE_SIZE {
        RolledEitherWay(s, e.system);
        TakenRolled(s, e.system, Rounded(e.want));
      } else {
        TakenFrom(s, Rounded(e.want));
      }
    }
  }

  /** The event hands out one block, of a file not queued before, or none; and the queue only grows. */
  lemma HandedFromOpenFile(s: State, e: Event)
    requires Inv(s) && Legal(s, e)
    ensures var t := Step(s, e);
            && (t.handed == s.handed || exists b: Block :: t.handed == s.handed + [b] && b.file !in s.queue)
            && s.queue <= t.queue
  {
    if Takes(e) { TakeShape(s, e); }
  }

  /** No block of a file sent for deletion is ever handed out afterwards. */
  lemma {:induction false} NeverHandedAgain(system: nat, events: seq<Event>, k: nat, f: nat)
    requires LegalRun(Start(system), events) && k <= |events|
    requires f in Run(Start(system), events[..k]).queue
    ensures var before, after := Run(Start(system), events[..k]), Run(Start(system), events);
            && f in after.queue
            && |before.handed| <= |after.handed|
            && forall i :: |before.handed| <= i < |after.handed| ==> after.handed[i].file != f
    decreases |events|
  {
    if k == |events| {
      assert events[..k] == events;
    } else {
      assert Front(events)[..k] == events[..k];
      NeverHandedAgain(system, Front(events), k, f);
      RunInv(system, Front(events));
      var before, mid := Run(Start(system), events[..k]).handed, Run(Start(system), Front(events));
      HandedFromOpenFile(mid, Last(events));
    }
  }

  // ----- Blocks checkpointed once -----

  ghost predicate OnceOk(s: State) {
    && (forall f :: Calls(s, f) == |CheckpointedOf(s, f)|)
    && (forall i, j :: 0 <= i < j < |s.queue| ==> s.queue[i] != s.queue[j])
  }

  /** Then as many calls as blocks means: a call for every block. */
  lemma OnceReady(s: State, f: nat)
    requires OnceOk(s)
    ensures Ready(s, f) <==> Reclaimable(s, f)
  {
    var b, l, k := BlocksOf(s, f), LockedOf(s, f), CheckpointedOf(s, f);
    assert k <= b && Calls(s, f) == |k|;
    if |k| >= |b| { SameSize(k, b); }
    assert forall id :: id in b ==> (id in l <==> id !in s.unlocked) && (id in k <==> s.blocks[id].checkpointed);
    if Reclaimable(s, f) { assert l == {} && k == b; }
  }

  lemma OnceTake(s: State, t: State)
    requires OnceOk(s) && Taken(s, t)
    ensures OnceOk(t)
  {
    forall f ensures Calls(t, f) == |CheckpointedOf(t, f)| {
      assert CheckpointedOf(t, f) == CheckpointedOf(s, f);
    }
  }

  lemma OnceUnlock(s: State, id: nat)
    requires Inv(s) && OnceOk(s) && id !in s.unlocked
    ensures OnceOk(SetUnlocked(s, id))
  {
    var t := SetUnlocked(s, id);
    forall f ensures Calls(t, f) == |CheckpointedOf(t, f)| {
      assert CheckpointedOf(t, f) == CheckpointedOf(s, f);
    }
    if id in s.blocks {
      assert id in LockedOf(s, s.blocks[id].file);
      assert !Ready(s, s.blocks[id].file);
    }
  }

  lemma OnceCheckpointSets(s: State, id: nat, g: nat)
    requires id in s.blocks && !s.blocks[id].checkpointed
    ensures CheckpointedOf(SetCheckpointed(s, id), g) == CheckpointedOf(s, g) + if g == s.blocks[id].file then {id} else {}
    ensures id !in CheckpointedOf(s, g)
  {
  }

  lemma OnceCallsLeft(s: State, id: nat)
    requires Inv(s) && OnceOk(s) && id in s.blocks && !s.blocks[id].checkpointed
    ensures Calls(s, s.blocks[id].file) < 103 && s.blocks[id].file !in s.queue
  {
    var f := s.blocks[id].file;
    assert Counted(s, f) && id in BlocksOf(s, f) && id !in CheckpointedOf(s, f);
    SubsetSize(CheckpointedOf(s, f) + {id}, BlocksOf(s, f));
    assert Calls(s, f) < |BlocksOf(s, f)|;
    assert !Ready(s, f);
  }

  lemma OnceCheckpointAt(s: State, id: nat, g: nat)
    requires id in s.blocks && !s.blocks[id].checkpointed && Calls(s, g) == |CheckpointedOf(s, g)|
    ensures Calls(SetCheckpointed(s, id), g) == |CheckpointedOf(SetCheckpointed(s, id), g)|
  {
    OnceCheckpointSets(s, id, g);
  }

  lemma OnceCheckpoint(s: State, id: nat)
    requires OnceOk(s) && id in s.blocks && !s.blocks[id].checkpointed && s.blocks[id].file !in s.queue
    ensures OnceOk(SetCheckpointed(s, id))
  {
    forall g ensures Calls(SetCheckpointed(s, id), g) == |CheckpointedOf(SetCheckpointed(s, id), g)| {
      OnceCheckpointAt(s, id, g);
    }
  }

  lemma OnceStep(s: State, e: Event)
    requires Inv(s) && OnceOk(s) && Once(s, e)
    ensures Legal(s, e) && OnceOk(Step(s, e))
  {
    if Takes(e) {
      TakeShape(s, e);
      OnceTake(s, Step(s, e));
    } else if e.Unlock? {
      OnceUnlock(s, e.id);
    } else if e.Checkpoint? && e.id in s.blocks {
      OnceCallsLeft(s, e.id);
      OnceCheckpoint(s, e.id);
    } else if e.FastForward? {
      var t := Step(s, e);
      assert forall f :: CheckpointedOf(t, f) == CheckpointedOf(s, f);
    }
  }

  lemma {:induction false} OnceRunLegal(system: nat, events: seq<Event>)
    requires OnceRun(Start(system), events)
    ensures LegalRun(Start(system), events) && OnceOk(Run(Start(system), events))
  {
    if events == [] {
      assert forall f :: CheckpointedOf(Start(system), f) == {};
    } else {
      OnceRunLegal(system, Front(events));
      RunInv(system, Front(events));
      OnceStep(Run(Start(system), Front(events)), Last(events));
    }
  }

  /** In every run that checkpoints a block at most once, a file has been sent for deletion, and then just
      once, exactly when it is fully allocated and all its blocks are unlocked and checkpointed. */
  lemma ReclaimedExactly(system: nat, events: seq<Event>, f: nat)
    requires OnceRun(Start(system), events)
    ensures var s := Run(Start(system), events);
            && (f in s.queue <==> Reclaimable(s, f))
            && (forall i, j :: 0 <= i < j < |s.queue| ==> s.queue[i] != s.queue[j])
  {
    OnceRunLegal(system, events);
    RunInv(system, events);
    OnceReady(Run(Start(system), events), f);
  }

  // ----- A file sent for deletion too early -----
  //
  // Blocks 1 and 2 fill a file, block 3 opens the next one, blocks 1 and 2 are unlocked, and block 1 is
  // checkpointed twice, as happens when a start-up and a later read both find it fully read.

  const HALF: nat := 50 * BLOCK_SIZE

  /** The state once block 3 is out: how many blocks of file `f` are locked, the checkpoint calls, the blocks
      unlocked, and whether block 1 is marked. */
  function Filled(f: nat, g: nat, locked: nat, calls: nat, unlocked: set<nat>, queue: seq<nat>): State {
    State(4, g, BLOCK_SIZE, g,
          map[1 := BlockState(calls > 0, f), 2 := BlockState(false, f), 3 := BlockState(false, g)],
          map[f := FileState(locked, calls, 2, true), g := FileState(1, 0, 1, false)],
          queue, [Block(1, f, 0, HALF), Block(2, f, HALF, HALF), Block(3, g, 0, BLOCK_SIZE)],
          unlocked, if calls == 0 then map[] else map[f := calls])
  }

  function Halves(f: nat, n: nat): State
    requires n == 1 || n == 2
  {
    if n == 1 then
      State(2, f, HALF, f, map[1 := BlockState(false, f)], map[f := FileState(1, 0, 1, false)], [],
            [Block(1, f, 0, HALF)], {}, map[])
    else
      State(3, f, 2 * HALF, f, map[1 := BlockState(false, f), 2 := BlockState(false, f)], map[f := FileState(2, 0, 2, false)], [],
            [Block(1, f, 0, HALF), Block(2, f, HALF, HALF)], {}, map[])
  }

  lemma FirstHalf(system: nat)
    ensures Step(Start(system), TakeSized(HALF, system)) == Halves(Millis(system, 0), 1)
  {
    var s := Start(system);
    assert Rounded(HALF) == HALF;
    RegisterEffect(s, Block(1, s.file, 0, HALF));
  }

  lemma SecondHalf(f: nat, system: nat)
    ensures Step(Halves(f, 1), TakeSized(HALF, system)) == Halves(f, 2)
  {
    assert Rounded(HALF) == HALF && HALF + HALF == MAX_FILE_SIZE;
    RegisterEffect(Halves(f, 1), Block(2, f, HALF, HALF));
  }

  lemma ThirdBlock(f: nat, g: nat, system: nat)
    requires g == Millis(system, f) && f != g
    ensures Step(Halves(f, 2), TakeDefault(system)) == Filled(f, g, 2, 0, {}, [])
  {
    var s := Halves(f, 2);
    var r := NewFile(SetFull(s, f), system);
    assert r == s.(file := g, clock := g, offset := 0, files := map[f := FileState(2, 0, 2, true)]);
    RegisterEffect(r, Block(3, g, 0, BLOCK_SIZE));
  }

  lemma UnlockBoth(f: nat, g: nat)
    requires f != g
    ensures Step(Filled(f, g, 2, 0, {}, []), Unlock(1)) == Filled(f, g, 1, 0, {1}, [])
    ensures Step(Filled(f, g, 1, 0, {1}, []), Unlock(2)) == Filled(f, g, 0, 0, {1, 2}, [])
  {
    assert {1} + {2} == {1, 2};
  }

  lemma CheckpointTwice(f: nat, g: nat)
    requires f != g
    ensures Step(Filled(f, g, 0, 0, {1, 2}, []), Checkpoint(1)) == Filled(f, g, 0, 1, {1, 2}, [])
    ensures Step(Filled(f, g, 0, 1, {1, 2}, []), Checkpoint(1)) == Filled(f, g, 0, 2, {1, 2}, [f])
  {
    assert [] + [f] == [f];
  }

  lemma Onward(s: State, events: seq<Event>, e: Event) returns (next: seq<Event>)
    requires LegalRun(s, events) && Legal(Run(s, events), e)
    ensures next == events + [e] && LegalRun(s, next) && Run(s, next) == Step(Run(s, events), e)
  {
    next := events + [e];
    assert Front(next) == events && Last(next) == e;
  }

  lemma FillFile(system: nat, f: nat, g: nat) returns (events: seq<Event>)
    requires system < TWO_64 - 1 && f == Millis(system, 0) && g == Millis(system, f)
    ensures f < g && LegalRun(Start(system), events) && Run(Start(system), events) == Filled(f, g, 2, 0, {}, [])
  {
    MillisFreshIff(system, f);
    FirstHalf(system);
    SecondHalf(f, system);
    ThirdBlock(f, g, system);
    events := Onward(Start(system), [], TakeSized(HALF, system));
    events := Onward(Start(system), events, TakeSized(HALF, system));
    events := Onward(Start(system), events, TakeDefault(system));
  }

  /** The file is queued although block 2 was never checkpointed. */
  lemma CheckpointedTwice(system: nat) returns (events: seq<Event>, f: nat)
    requires system < TWO_64 - 1
    ensures LegalRun(Start(system), events)
    ensures var s := Run(Start(system), events);
            f in s.queue && 2 in BlocksOf(s, f) && !s.blocks[2].checkpointed && !Reclaimable(s, f)
  {
    f := Millis(system, 0);
    var g := Millis(system, f);
    events := FillFile(system, f, g);
    UnlockBoth(f, g);
    CheckpointTwice(f, g);
    events := Onward(Start(system), events, Unlock(1));
    events := Onward(Start(system), events, Unlock(2));
    events := Onward(Start(system), events, Checkpoint(1));
    events := Onward(Start(system), events, Checkpoint(1));
    assert 2 in BlocksOf(Filled(f, g, 0, 2, {1, 2}, [f]), f);
  }

  // ----- Isolation -----

  /** Ids strictly increase and blocks of the same file never overlap, over every legal run. */
  lemma BlocksDisjoint(system: nat, events: seq<Event>)
    requires LegalRun(Start(system), events)
    ensures var handed := Run(Start(system), events).handed;
            forall i, j :: 0 <= i < j < |handed| ==>
              && handed[i].id < handed[j].id
              && (handed[i].file == handed[j].file ==> handed[i].offset + handed[i].limit <= handed[j].offset)
  {
    RunInv(system, events);
  }

  /** A default block always lies inside its file; a sized one exactly when the request is at most the size
      of a file, although requests up to MAX_ALLOC, which is larger, are accepted. */
  lemma InsideFileIff(s: State, e: Event)
    requires Inv(s) && Legal(s, e) && (e.TakeDefault? || (e.TakeSized? && 0 < e.want <= MAX_ALLOC))
    ensures var t := Step(s, e);
            && |t.handed| == |s.handed| + 1
            && (e.TakeSized? ==> e.want <= Last(t.handed).limit)
            && (Last(t.handed).offset + Last(t.handed).limit <= MAX_FILE_SIZE <==> (e.TakeSized? ==> e.want <= MAX_FILE_SIZE))
  {
    if e.TakeSized? {
      RoundedSize(e.want);
      RolledEitherWay(s, e.system);
    }
  }

  lemma DisjointWrite(c: Codec, file: seq<Checksum.byte>, a: Block, b: Block, at: nat, item: Item, off: nat)
    requires a.offset + a.limit <= b.offset || b.offset + b.limit <= a.offset
    requires Fits(c, item) && at + PREFIX + |item.data| <= a.limit && a.offset + a.limit <= |file|
    requires off + Span(c, file, b.offset + off) <= b.limit
    ensures ReadAt(c, Splice(file, a.offset + at, Frame(c, item)), b.offset + off) == ReadAt(c, file, b.offset + off)
  {
    ReadDepends(c, file, Splice(file, a.offset + at, Frame(c, item)), b.offset + off);
  }

  /** A write inside one block never changes what a read returns that stays inside another. */
  lemma ReadsIsolated(system: nat, events: seq<Event>, a: Block, b: Block, c: Codec, file: seq<Checksum.byte>, at: nat, item: Item, off: nat)
    requires LegalRun(Start(system), events)
    requires a in Run(Start(system), events).handed && b in Run(Start(system), events).handed && a.id != b.id && a.file == b.file
    requires Fits(c, item) && at + PREFIX + |item.data| <= a.limit && a.offset + a.limit <= |file|
    requires off + Span(c, file, b.offset + off) <= b.limit
    ensures ReadAt(c, Splice(file, a.offset + at, Frame(c, item)), b.offset + off) == ReadAt(c, file, b.offset + off)
  {
    RunInv(system, events);
    HandedApart(Run(Start(system), events), a, b);
    DisjointWrite(c, file, a, b, at, item, off);
  }

  lemma HandedApart(s: State, a: Block, b: Block)
    requires HandedOk(s) && a in s.handed && b in s.handed && a.id != b.id && a.file == b.file
    ensures a.offset + a.limit <= b.offset || b.offset + b.limit <= a.offset
  {
    var i :| 0 <= i < |s.handed| && s.handed[i] == a;
    var j :| 0 <= j < |s.handed| && s.handed[j] == b;
  }

  // ----- The allocator object, with the trackers it feeds -----

  class BlockAllocator {
    var nextId: nat
    var file: nat
    var offset: nat
    var clock: nat
    var blocks: map<nat, BlockState>
    var files: map<nat, FileState>
    var queue: seq<nat>
    ghost var handed: seq<Block>
    ghost var unlocked: set<nat>
    ghost var calls: map<nat, nat>

    ghost function S(): State
      reads this
    {
      State(nextId, file, offset, clock, blocks, files, queue, handed, unlocked, calls)
    }

    constructor (system: nat)
      ensures S() == Start(system)
    {
      clock := Millis(system, 0);
      file := Millis(system, 0);
      nextId, offset := 1, 0;
      blocks, files, queue, handed, unlocked, calls := map[], map[], [], [], {}, map[];
    }

    method FlushFile(f: nat)
      modifies this`queue
      ensures S() == FlushCheck(old(S()), f)
    {
      if f in files {
        var st := files[f];
        var ready := st.full && st.locked == 0 && st.total > 0 && st.checkpointed >= st.total;
        if ready {
          queue := queue + [f];
        }
      }
    }

    method RegisterFileIfAbsent(f: nat)
      modifies this`files
      ensures S() == RegisterFile(old(S()), f)
    {
      if f !in files {
        files := files[f := FileState(0, 0, 0, false)];
      }
    }

    method SetFullyAllocated(f: nat)
      modifies this`files, this`queue
      ensures S() == SetFull(old(S()), f)
    {
      RegisterFileIfAbsent(f);
      files := files[f := files[f].(full := true)];
      FlushFile(f);
    }

    method SetBlockUnlocked(id: nat)
      modifies this`files, this`queue, this`unlocked
      ensures S() == Step(old(S()), Unlock(id))
    {
      if id in blocks {
        var f := blocks[id].file;
        if f in files {
          files := files[f := files[f].(locked := (files[f].locked + TWO_16 - 1) % TWO_16)];
        }
        unlocked := unlocked + {id};
        FlushFile(f);
      }
    }

    method SetCheckpointedTrue(id: nat)
      modifies this`blocks, this`files, this`queue, this`calls
      ensures S() == Step(old(S()), Checkpoint(id))
    {
      if id in blocks {
        var f := blocks[id].file;
        blocks := blocks[id := BlockState(true, f)];
        if f in files {
          files := files[f := files[f].(checkpointed := (files[f].checkpointed + 1) % TWO_16)];
        }
        calls := calls[f := Get(calls, f, 0) + 1];
        FlushFile(f);
      }
    }

    /** Registers the block, counts it in its file and marks it locked. */
    method RegisterHanded(b: Block)
      modifies this`blocks, this`files
      ensures S() == Register(old(S()), b)
    {
      if b.id !in blocks {
        blocks := blocks[b.id := BlockState(false, b.file)];
      }
      RegisterFileIfAbsent(b.file);
      files := files[b.file := files[b.file].(total := (files[b.file].total + 1) % TWO_16)];
      var path := blocks[b.id].file;
      if path in files {
        files := files[path := files[path].(locked := (files[path].locked + 1) % TWO_16)];
      }
    }

    /** The common tail of both allocations: register the block at the current position and move on. */
    method TakeBytes(size: nat) returns (b: Block)
      modifies this`blocks, this`files, this`offset, this`nextId, this`handed
      ensures S() == HandOut(old(S()), size) && handed == old(handed) + [b]
      ensures b == Block(old(nextId), old(file), old(offset), size)
    {
      b := Block(nextId, file, offset, size);
      RegisterHanded(b);
      offset := offset + size;
      nextId := nextId + 1;
      handed := handed + [b];
    }

    method GetNextAvailableBlock(system: nat) returns (b: Block)
      modifies this
      ensures S() == Step(old(S()), TakeDefault(system)) && b == Last(handed)
      ensures old(offset) < MAX_FILE_SIZE ==> b == Block(old(nextId), old(file), old(offset), BLOCK_SIZE)
      ensures old(offset) >= MAX_FILE_SIZE ==> b == Block(old(nextId), Millis(system, old(clock)), 0, BLOCK_SIZE)
    {
      if offset >= MAX_FILE_SIZE {
        SetFullyAllocated(file);
        clock := Millis(system, clock);
        file := clock;
        offset := 0;
      }
      assert S() == if old(offset) >= MAX_FILE_SIZE then NewFile(SetFull(old(S()), old(file)), system) else old(S());
      b := TakeBytes(BLOCK_SIZE);
    }

    method AllocBlock(want: nat, system: nat) returns (b: Option<Block>)
      modifies this
      ensures S() == Step(old(S()), TakeSized(want, system))
      ensures b == if want == 0 || want > MAX_ALLOC then None else Some(Last(handed))
      ensures b.Some? ==> b.value.limit % BLOCK_SIZE == 0 && want <= b.value.limit < want + BLOCK_SIZE
      ensures b.Some? && old(offset) + b.value.limit <= MAX_FILE_SIZE ==>
                b.value.file == old(file) && b.value.offset == old(offset)
      ensures b.Some? && old(offset) + b.value.limit > MAX_FILE_SIZE ==>
                b.value.file == Millis(system, old(clock)) && b.value.offset == 0
    {
      if want == 0 || want > MAX_ALLOC {
        return None;
      }
      var units := (want + BLOCK_SIZE - 1) / BLOCK_SIZE;
      var size := units * BLOCK_SIZE;
      RoundedSize(want);
      if offset + size > MAX_FILE_SIZE {
        var previous := file;
        clock := Millis(system, clock);
        file := clock;
        offset := 0;
        SetFullyAllocated(previous);
      }
      assert S() == if old(offset) + size > MAX_FILE_SIZE then SetFull(NewFile(old(S()), system), old(file)) else old(S());
      var ret := TakeBytes(size);
      b := Some(ret);
    }

    method FastForwardTo(id: nat)
      modifies this`nextId
      ensures S() == Step(old(S()), FastForward(id))
    {
      if id > nextId {
        nextId := id;
      }
    }
  }
}
