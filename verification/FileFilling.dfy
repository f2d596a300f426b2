/**
 Where the allocator puts a block (src/wal/runtime/allocator.rs): in the open file as long as the request
 fits, so that files are filled without gaps and left only when they have to be.
 */
module FileFilling {
  import opened Basics
  import opened Blocks
  import opened Allocator

  /** The bytes a request asks for: one default block, or the least number of whole blocks that holds it. */
  predicate AsksFor(e: Event, size: nat)
    requires Takes(e)
  {
    if e.TakeDefault? then size == BLOCK_SIZE else size % BLOCK_SIZE == 0 && e.want <= size < e.want + BLOCK_SIZE
  }

  /** One block `b` with the next id: in the open file, right behind the last one, if it fits there, and at the
      start of a file named by the clock otherwise. The next one is looked for behind it. */
  ghost predicate Placed(s: State, e: Event, t: State, b: Block)
    requires Takes(e)
  {
    && t.handed == s.handed + [b] && b.id == s.nextId && t.nextId == s.nextId + 1 && AsksFor(e, b.limit)
    && (if s.offset + b.limit <= MAX_FILE_SIZE
        then b.file == s.file && b.offset == s.offset && t.clock == s.clock
        else b.file == Millis(e.system, s.clock) && b.offset == 0 && t.clock == b.file)
    && t.file == b.file && t.offset == b.offset + b.limit
  }

  lemma HandOutPlace(s: State, size: nat)
    ensures var t := HandOut(s, size);
            && t.handed == s.handed + [Block(s.nextId, s.file, s.offset, size)] && t.nextId == s.nextId + 1
            && t.file == s.file && t.clock == s.clock && t.offset == s.offset + size
  {
  }

  lemma RolledPlace(s: State, system: nat)
    ensures var t := Rolled(s, system);
            && t.handed == s.handed && t.nextId == s.nextId
            && t.file == t.clock == Millis(system, s.clock) && t.offset == 0
  {
  }

  /** Both allocations hand out from the open file, or from a new one. */
  lemma TakenAt(s: State, e: Event, size: nat)
    requires Takes(e) && s.offset % BLOCK_SIZE == 0 && size == if e.TakeDefault? then BLOCK_SIZE else Rounded(e.want)
    ensures Step(s, e) == HandOut(if s.offset + size <= MAX_FILE_SIZE then s else Rolled(s, e.system), size)
  {
    if e.TakeSized? { RolledEitherWay(s, e.system); }
  }

  /** An allocation leaves the open file exactly when the request does not fit. */
  lemma PlacedWhereItFits(s: State, e: Event)
    requires Takes(e) && s.offset % BLOCK_SIZE == 0
    ensures Step(s, e).handed != [] && Placed(s, e, Step(s, e), Last(Step(s, e).handed))
  {
    var size := if e.TakeDefault? then BLOCK_SIZE else Rounded(e.want);
    if e.TakeSized? { RoundedSize(e.want); }
    TakenAt(s, e, size);
    RolledPlace(s, e.system);
    HandOutPlace(if s.offset + size <= MAX_FILE_SIZE then s else Rolled(s, e.system), size);
  }

  /** A request outside the bounds changes nothing. */
  lemma Refused(s: State, want: nat, system: nat)
    ensures Step(s, TakeSized(want, system)) == s <==> want == 0 || want > MAX_ALLOC
  {
    if 0 < want <= MAX_ALLOC {
      assert |Step(s, TakeSized(want, system)).handed| == |s.handed| + 1;
    }
  }

  // ----- Whole runs -----

  /** `b` is right behind `a`, or opens a file because it did not fit behind `a`. */
  predicate Follows(a: Block, b: Block) {
    if b.file == a.file then b.offset == a.offset + a.limit
    else b.offset == 0 && a.offset + a.limit + b.limit > MAX_FILE_SIZE
  }

  ghost predicate Packed(handed: seq<Block>) {
    && (handed != [] ==> handed[0].offset == 0)
    && forall i :: 0 < i < |handed| ==> Follows(handed[i - 1], handed[i])
  }

  /** The next position is right behind the last block. */
  ghost predicate PackedState(s: State) {
    && Packed(s.handed) && s.offset == EndOf(s.handed)
    && (s.handed != [] ==> Last(s.handed).file == s.file)
  }

  function EndOf(handed: seq<Block>): nat {
    if handed == [] then 0 else Last(handed).offset + Last(handed).limit
  }

  lemma StepPacks(s: State, e: Event)
    requires Inv(s) && Legal(s, e) && PackedState(s)
    ensures PackedState(Step(s, e))
  {
    if Takes(e) {
      PlacedWhereItFits(s, e);
      MillisFreshIff(e.system, s.clock);
      OneMore(s.handed, Last(Step(s, e).handed));
    }
  }

  lemma OneMore(handed: seq<Block>, b: Block)
    requires Packed(handed) && if handed == [] then b.offset == 0 else Follows(Last(handed), b)
    ensures Packed(handed + [b])
  {
  }

  /** Over every run blocks lie in their files one behind the other without gaps, and a file is left only for
      a block that does not fit in the rest of it. */
  lemma {:induction false} FilesPacked(system: nat, events: seq<Event>)
    requires LegalRun(Start(system), events)
    ensures PackedState(Run(Start(system), events))
  {
    if events != [] {
      FilesPacked(system, Front(events));
      RunInv(system, Front(events));
      StepPacks(Run(Start(system), Front(events)), Last(events));
    }
  }

  // ----- Runs of default allocations -----

  predicate OnlyDefault(events: seq<Event>) {
    forall i :: 0 <= i < |events| ==> events[i].TakeDefault?
  }

  /** Files that were left are full of default blocks, and the open one holds as many as fit before its offset. */
  ghost predicate Full(s: State) {
    && s.offset <= MAX_FILE_SIZE && |BlocksOf(s, s.file)| * BLOCK_SIZE == s.offset
    && forall f :: f in s.files && f != s.file ==> |BlocksOf(s, f)| == BLOCKS_PER_FILE
  }

  lemma TakenSets(s: State, t: State, g: nat)
    requires Taken(s, t)
    ensures s.nextId !in BlocksOf(s, g)
    ensures BlocksOf(t, g) == BlocksOf(s, g) + if g == t.file then {s.nextId} else {}
  {
  }

  lemma RolledFiles(s: State, system: nat, f: nat)
    requires f in Rolled(s, system).files
    ensures f in s.files || f == s.file
  {
  }

  lemma KnownFiles(s: State, system: nat, f: nat)
    requires s.offset % BLOCK_SIZE == 0 && f in Step(s, TakeDefault(system)).files
    ensures f in s.files || f == s.file || f == Step(s, TakeDefault(system)).file
  {
    TakenAt(s, TakeDefault(system), BLOCK_SIZE);
    var from := if s.offset + BLOCK_SIZE <= MAX_FILE_SIZE then s else Rolled(s, system);
    HandOutPlace(from, BLOCK_SIZE);
    if from != s && f in from.files { RolledFiles(s, system, f); }
  }

  lemma LeftFull(s: State, system: nat, t: State, f: nat)
    requires t == Step(s, TakeDefault(system)) && Taken(s, t) && f in t.files && f != t.file
    requires Full(s) && s.offset % BLOCK_SIZE == 0 && (t.file != s.file ==> s.offset == MAX_FILE_SIZE)
    ensures |BlocksOf(t, f)| == BLOCKS_PER_FILE
  {
    KnownFiles(s, system, f);
    TakenSets(s, t, f);
  }

  /** The open file after an allocation that found room, or had to open a new one. */
  lemma OpenFills(s: State, system: nat, t: State)
    requires Inv(s) && s.clock < TWO_64 - 1 && Full(s) && Taken(s, t)
    requires t.handed != [] && Placed(s, TakeDefault(system), t, Last(t.handed))
    ensures t.offset <= MAX_FILE_SIZE && |BlocksOf(t, t.file)| * BLOCK_SIZE == t.offset
    ensures t.file != s.file ==> s.offset == MAX_FILE_SIZE
  {
    TakenSets(s, t, t.file);
    if t.file != s.file {
      MillisFreshIff(system, s.clock);
    } else if s.offset == MAX_FILE_SIZE {
      MillisFreshIff(system, s.clock);
      assert false;
    }
  }

  lemma DefaultFills(s: State, system: nat)
    requires Inv(s) && s.clock < TWO_64 - 1 && Full(s)
    ensures Full(Step(s, TakeDefault(system)))
  {
    var t := Step(s, TakeDefault(system));
    PlacedWhereItFits(s, TakeDefault(system));
    TakeShape(s, TakeDefault(system));
    OpenFills(s, system, t);
    forall f | f in t.files && f != t.file ensures |BlocksOf(t, f)| == BLOCKS_PER_FILE {
      LeftFull(s, system, t, f);
    }
  }

  /** In every run of default allocations each file that was left holds exactly BLOCKS_PER_FILE blocks. */
  lemma {:induction false} DefaultFilesAreFull(system: nat, events: seq<Event>)
    requires LegalRun(Start(system), events) && OnlyDefault(events)
    ensures Full(Run(Start(system), events))
  {
    if events == [] {
      assert BlocksOf(Start(system), Start(system).file) == {};
    } else {
      DefaultFilesAreFull(system, Front(events));
      RunInv(system, Front(events));
      DefaultFills(Run(Start(system), Front(events)), Last(events).system);
    }
  }

  // ----- Ids after a restart -----

  lemma IdsGrow(s: State, e: Event)
    ensures s.nextId <= Step(s, e).nextId
    ensures e.FastForward? ==> e.id <= Step(s, e).nextId && Step(s, e) == s.(nextId := Step(s, e).nextId)
  {
    if Takes(e) && e.TakeSized? { RolledEitherWay(s, e.system); }
  }

  lemma {:induction false} IdsGrowAlong(s: State, events: seq<Event>, k: nat)
    requires k <= |events|
    ensures Run(s, events[..k]).nextId <= Run(s, events).nextId
    decreases |events|
  {
    if k == |events| {
      assert events[..k] == events;
    } else {
      assert Front(events)[..k] == events[..k];
      IdsGrowAlong(s, Front(events), k);
      IdsGrow(Run(s, Front(events)), Last(events));
    }
  }

  /** After the allocator was moved past the ids found on disk, no later block gets one of those ids: the next
      id, which PlacedWhereItFits gives to the next block, stays beyond them. */
  lemma NoIdReused(s: State, events: seq<Event>, k: nat)
    requires k < |events| && events[k].FastForward?
    ensures Run(s, events).nextId >= events[k].id
  {
    assert Front(events[..k + 1]) == events[..k];
    IdsGrow(Run(s, events[..k]), events[k]);
    IdsGrowAlong(s, events, k + 1);
  }
}
