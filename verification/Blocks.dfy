/**
 Entry framing inside a block (src/wal/block.rs): a 256-byte prefix holding the length of the encoded
 metadata and the metadata itself, then the payload. The metadata encoding is that of an outside
 library; it is a parameter here, known only to decode what it encoded.
 */
module Blocks {
  import opened Basics
  import opened Checksum

  const PREFIX: nat := 256

  datatype Meta = Meta(readSize: nat, ownedBy: string, nextBlockStart: nat, checksum: word)

  /** The functions a block relies on: the metadata encoding of an outside library, and the checksum, of which
      framing needs to know nothing; where it matters, it is required to be FNV-1a. */
  datatype Codec = Codec(enc: Meta -> seq<byte>, dec: seq<byte> -> Option<Meta>, sum: seq<byte> -> word)

  ghost predicate Faithful(c: Codec) {
    forall m :: c.enc(m) != [] && c.dec(c.enc(m)) == Some(m)
  }

  /** The checksum is FNV-1a. */
  ghost predicate SumsFnv(c: Codec) {
    forall data :: c.sum(data) == Fnv1a(data)
  }

  /** An entry with what its header records besides the payload. */
  datatype Item = Item(data: seq<byte>, owner: string, next: nat)

  function MetaOf(c: Codec, item: Item): Meta { Meta(|item.data|, item.owner, item.next, c.sum(item.data)) }

  /** The encoded metadata fits the prefix. */
  predicate Fits(c: Codec, item: Item) { |c.enc(MetaOf(c, item))| <= PREFIX - 2 }

  function Zeros(n: nat): (z: seq<byte>)
    ensures |z| == n && forall i :: 0 <= i < n ==> z[i] == 0
  {
    seq(n, i => 0)
  }

  function Header(c: Codec, item: Item): (h: seq<byte>)
    requires Fits(c, item)
    ensures |h| == PREFIX
  {
    var m := c.enc(MetaOf(c, item));
    [(|m| % 256) as byte, (|m| / 256) as byte] + m + Zeros(PREFIX - 2 - |m|)
  }

  function Frame(c: Codec, item: Item): (f: seq<byte>)
    requires Fits(c, item)
    ensures |f| == PREFIX + |item.data|
  {
    Header(c, item) + item.data
  }

  /** `bytes` written over `file` at `at`. */
  function Splice(file: seq<byte>, at: nat, bytes: seq<byte>): (r: seq<byte>)
    requires at + |bytes| <= |file|
    ensures |r| == |file|
    ensures r[at..at + |bytes|] == bytes
    ensures forall i :: 0 <= i < |file| && (i < at || at + |bytes| <= i) ==> r[i] == file[i]
  {
    file[..at] + bytes + file[at + |bytes|..]
  }

  datatype ReadError = OutOfRange | BadLength | BadMetadata | ChecksumMismatch

  datatype ReadResult = Ok(data: seq<byte>, consumed: nat) | Err(error: ReadError)

  /** The decoded header at an offset. */
  function HeaderAt(c: Codec, file: seq<byte>, off: nat): Option<Meta>
    requires off + PREFIX <= |file|
  {
    var len := file[off] as int + 256 * (file[off + 1] as int);
    if len == 0 || len > PREFIX - 2 then None else c.dec(file[off + 2..off + 2 + len])
  }

  function ReadAt(c: Codec, file: seq<byte>, off: nat): ReadResult {
    if off + PREFIX > |file| then Err(OutOfRange)
    else
      var len := file[off] as int + 256 * (file[off + 1] as int);
      if len == 0 || len > PREFIX - 2 then Err(BadLength)
      else
        match HeaderAt(c, file, off)
        case None => Err(BadMetadata)
        case Some(m) =>
          if off + PREFIX + m.readSize > |file| then Err(OutOfRange)
          else
            var data := file[off + PREFIX..off + PREFIX + m.readSize];
            if c.sum(data) != m.checksum then Err(ChecksumMismatch) else Ok(data, PREFIX + m.readSize)
  }

  /** The header of `item` is at `off`. */
  ghost predicate HeaderIntact(c: Codec, file: seq<byte>, off: nat, item: Item) {
    Fits(c, item) && off + PREFIX + |item.data| <= |file| && file[off..off + PREFIX] == Header(c, item)
  }

  lemma SubSlice<T>(s: seq<T>, a: nat, b: nat, x: nat, y: nat)
    requires a <= b <= |s| && x <= y <= b - a
    ensures s[a..b][x..y] == s[a + x..a + y]
  {
    var l, r := s[a..b][x..y], s[a + x..a + y];
    assert |l| == |r| && forall i :: 0 <= i < |l| ==> l[i] == s[a..b][x + i] == s[a + x + i] == r[i];
  }

  lemma HeaderReads(c: Codec, file: seq<byte>, off: nat, item: Item)
    requires Faithful(c) && HeaderIntact(c, file, off, item)
    ensures HeaderAt(c, file, off) == Some(MetaOf(c, item))
    ensures 0 < file[off] as int + 256 * (file[off + 1] as int) <= PREFIX - 2
  {
    var m := c.enc(MetaOf(c, item));
    var h := Header(c, item);
    assert file[off] == h[0] && file[off + 1] == h[1];
    assert |m| > 0 && c.dec(m) == Some(MetaOf(c, item));
    SubSlice(file, off, off + PREFIX, 2, 2 + |m|);
    assert h[2..2 + |m|] == m;
  }

  /** With header and payload intact a read returns the payload. */
  lemma IntactReads(c: Codec, file: seq<byte>, off: nat, item: Item)
    requires Faithful(c) && HeaderIntact(c, file, off, item)
    requires file[off + PREFIX..off + PREFIX + |item.data|] == item.data
    ensures ReadAt(c, file, off) == Ok(item.data, PREFIX + |item.data|)
  {
    HeaderReads(c, file, off, item);
  }

  /** With the header intact, a read of a payload in which exactly one byte has changed fails: the altered
      data is never returned. */
  lemma CorruptionDetected(c: Codec, file: seq<byte>, off: nat, item: Item, i: nat, b: byte)
    requires Faithful(c) && SumsFnv(c) && HeaderIntact(c, file, off, item)
    requires i < |item.data| && item.data[i] != b
    requires file[off + PREFIX..off + PREFIX + |item.data|] == item.data[i := b]
    ensures ReadAt(c, file, off) == Err(ChecksumMismatch)
  {
    HeaderReads(c, file, off, item);
    OneByteDetected(item.data, i, b);
  }

  /** What is written is what is read. */
  lemma WriteThenRead(c: Codec, file: seq<byte>, off: nat, item: Item)
    requires Faithful(c) && Fits(c, item) && off + PREFIX + |item.data| <= |file|
    ensures ReadAt(c, Splice(file, off, Frame(c, item)), off) == Ok(item.data, PREFIX + |item.data|)
  {
    var f := Splice(file, off, Frame(c, item));
    FrameAt(c, f, off, item);
    IntactReads(c, f, off, item);
  }

  lemma FrameAt(c: Codec, file: seq<byte>, off: nat, item: Item)
    requires Fits(c, item) && off + PREFIX + |item.data| <= |file|
    requires file[off..off + PREFIX + |item.data|] == Frame(c, item)
    ensures HeaderIntact(c, file, off, item)
    ensures file[off + PREFIX..off + PREFIX + |item.data|] == item.data
  {
    var f := file[off..off + PREFIX + |item.data|];
    assert f[..PREFIX] == file[off..off + PREFIX] && f[PREFIX..] == file[off + PREFIX..off + PREFIX + |item.data|];
  }

  /** What is written where: the length of the encoded metadata in two bytes, low one first, the encoded metadata
      behind it, zeros up to the prefix, and the payload behind the prefix; the metadata records the length,
      owner, following block and checksum. */
  lemma WrittenLayout(c: Codec, file: seq<byte>, off: nat, item: Item)
    requires Fits(c, item) && off + PREFIX + |item.data| <= |file|
    ensures var f, m := Splice(file, off, Frame(c, item)), c.enc(Meta(|item.data|, item.owner, item.next, c.sum(item.data)));
            && |m| <= 254 && f[off] as int + 256 * (f[off + 1] as int) == |m|
            && f[off + 2..off + 2 + |m|] == m
            && (forall i :: off + 2 + |m| <= i < off + 256 ==> f[i] == 0)
            && f[off + 256..off + 256 + |item.data|] == item.data
  {
    var f, m := Splice(file, off, Frame(c, item)), c.enc(MetaOf(c, item));
    var h := Header(c, item);
    FrameAt(c, f, off, item);
    assert f[off] == f[off..off + PREFIX][0] == h[0] && f[off + 1] == f[off..off + PREFIX][1] == h[1];
    SubSlice(f, off, off + PREFIX, 2, 2 + |m|);
    assert h[2..2 + |m|] == m;
    forall i | off + 2 + |m| <= i < off + 256 ensures f[i] == 0 {
      assert f[i] == f[off..off + PREFIX][i - off] == h[i - off];
    }
  }

  // ----- Which bytes a read depends on -----

  /** The number of bytes from `off` on that a read looks at. */
  function Span(c: Codec, file: seq<byte>, off: nat): nat {
    if off + PREFIX > |file| then 0
    else
      match HeaderAt(c, file, off)
      case None => PREFIX
      case Some(m) => if off + PREFIX + m.readSize > |file| then PREFIX else PREFIX + m.readSize
  }

  lemma ReadDepends(c: Codec, f: seq<byte>, g: seq<byte>, off: nat)
    requires |f| == |g|
    requires forall i :: off <= i < off + Span(c, f, off) && i < |f| ==> f[i] == g[i]
    ensures ReadAt(c, g, off) == ReadAt(c, f, off)
  {
    if off + PREFIX <= |f| {
      assert f[off..off + PREFIX] == g[off..off + PREFIX];
      var len := f[off] as int + 256 * (f[off + 1] as int);
      assert f[off] == g[off] && f[off + 1] == g[off + 1];
      if 0 < len <= PREFIX - 2 {
        assert f[off + 2..off + 2 + len] == g[off + 2..off + 2 + len];
        match HeaderAt(c, f, off)
        case None =>
        case Some(m) =>
          if off + PREFIX + m.readSize <= |f| {
            assert f[off + PREFIX..off + PREFIX + m.readSize] == g[off + PREFIX..off + PREFIX + m.readSize];
          }
      }
    }
  }

  // ----- Walking a block -----

  /** The payloads found by reading from `off` on, stepping by what each read consumed, up to the first error. */
  function WalkWith(read: nat -> ReadResult, size: nat, off: nat): seq<seq<byte>>
    decreases size - off
  {
    match read(off)
    case Err(_) => []
    case Ok(data, consumed) =>
      [data] + if consumed == 0 || size < off + consumed then [] else WalkWith(read, size, off + consumed)
  }

  function Reader(c: Codec, file: seq<byte>): nat -> ReadResult { (off: nat) => ReadAt(c, file, off) }

  function Walk(c: Codec, file: seq<byte>, off: nat): seq<seq<byte>> { WalkWith(Reader(c, file), |file|, off) }

  /** Reads from `off` on return these payloads one after the other. */
  ghost predicate Reads(read: nat -> ReadResult, size: nat, off: nat, payloads: seq<seq<byte>>)
    decreases |payloads|
  {
    payloads != [] ==>
      var n := PREFIX + |payloads[0]|;
      read(off) == Ok(payloads[0], n) && off + n <= size && Reads(read, size, off + n, payloads[1..])
  }

  /** The length of payloads framed back to back. */
  function Extent(payloads: seq<seq<byte>>): nat {
    if payloads == [] then 0 else PREFIX + |payloads[0]| + Extent(payloads[1..])
  }

  lemma {:induction false} WalkFollows(read: nat -> ReadResult, size: nat, off: nat, payloads: seq<seq<byte>>)
    requires Reads(read, size, off, payloads)
    ensures WalkWith(read, size, off) == payloads + WalkWith(read, size, off + Extent(payloads))
    decreases |payloads|
  {
    if payloads != [] {
      var n := PREFIX + |payloads[0]|;
      WalkFollows(read, size, off + n, payloads[1..]);
      assert payloads == [payloads[0]] + payloads[1..];
    }
  }

  lemma WalkStops(read: nat -> ReadResult, size: nat, off: nat, payloads: seq<seq<byte>>)
    requires Reads(read, size, off, payloads) && read(off + Extent(payloads)).Err?
    ensures WalkWith(read, size, off) == payloads
  {
    WalkFollows(read, size, off, payloads);
    assert payloads + [] == payloads;
  }

  lemma WalkEnds(c: Codec, file: seq<byte>, off: nat, end: nat, payloads: seq<seq<byte>>)
    requires Reads(Reader(c, file), |file|, off, payloads) && end == off + Extent(payloads)
    requires end + 2 <= |file| ==> file[end] == 0 && file[end + 1] == 0
    ensures Walk(c, file, off) == payloads
  {
    assert Reader(c, file)(end).Err?;
    WalkStops(Reader(c, file), |file|, off, payloads);
  }

  // ----- Entries written back to back -----

  function Payloads(items: seq<Item>): seq<seq<byte>> {
    if items == [] then [] else [items[0].data] + Payloads(items[1..])
  }

  function Length(items: seq<Item>): nat {
    if items == [] then 0 else PREFIX + |items[0].data| + Length(items[1..])
  }

  predicate AllFit(c: Codec, items: seq<Item>) { forall i :: 0 <= i < |items| ==> Fits(c, items[i]) }

  /** The file after writing the items one behind the other from `off` on. */
  function WriteAll(c: Codec, file: seq<byte>, off: nat, items: seq<Item>): (r: seq<byte>)
    requires AllFit(c, items) && off + Length(items) <= |file|
    ensures |r| == |file|
    ensures forall i :: 0 <= i < |file| && (i < off || off + Length(items) <= i) ==> r[i] == file[i]
    decreases |items|
  {
    if items == [] then file
    else WriteAll(c, Splice(file, off, Frame(c, items[0])), off + PREFIX + |items[0].data|, items[1..])
  }

  /** The file holds the items back to back from `off` on. */
  ghost predicate Holds(c: Codec, file: seq<byte>, off: nat, items: seq<Item>)
    decreases |items|
  {
    items != [] ==>
      var n := PREFIX + |items[0].data|;
      && Fits(c, items[0]) && off + n <= |file| && file[off..off + n] == Frame(c, items[0])
      && Holds(c, file, off + n, items[1..])
  }

  lemma {:induction false} WriteAllHolds(c: Codec, file: seq<byte>, off: nat, items: seq<Item>)
    requires AllFit(c, items) && off + Length(items) <= |file|
    ensures Holds(c, WriteAll(c, file, off, items), off, items)
    decreases |items|
  {
    if items != [] {
      var n := PREFIX + |items[0].data|;
      var once, after := Splice(file, off, Frame(c, items[0])), WriteAll(c, file, off, items);
      WriteAllHolds(c, once, off + n, items[1..]);
      assert after[off..off + n] == once[off..off + n];
    }
  }

  lemma FirstIsRead(c: Codec, file: seq<byte>, off: nat, items: seq<Item>)
    requires Faithful(c) && items != [] && Holds(c, file, off, items)
    ensures var n := PREFIX + |items[0].data|;
            Reader(c, file)(off) == Ok(items[0].data, n) && off + n <= |file| && Holds(c, file, off + n, items[1..])
  {
    FrameAt(c, file, off, items[0]);
    IntactReads(c, file, off, items[0]);
  }

  lemma {:induction false} HeldIsRead(c: Codec, file: seq<byte>, off: nat, items: seq<Item>)
    requires Faithful(c) && Holds(c, file, off, items)
    ensures Reads(Reader(c, file), |file|, off, Payloads(items))
    ensures Extent(Payloads(items)) == Length(items)
    decreases |items|
  {
    if items != [] {
      FirstIsRead(c, file, off, items);
      HeldIsRead(c, file, off + PREFIX + |items[0].data|, items[1..]);
      assert Payloads(items)[1..] == Payloads(items[1..]);
    }
  }

  lemma {:induction false} HeldElsewhere(c: Codec, f: seq<byte>, g: seq<byte>, off: nat, items: seq<Item>)
    requires Holds(c, f, off, items) && |f| == |g|
    requires forall i :: off <= i < off + Length(items) && i < |f| ==> f[i] == g[i]
    ensures Holds(c, g, off, items)
    decreases |items|
  {
    if items != [] {
      var n := PREFIX + |items[0].data|;
      assert g[off..off + n] == f[off..off + n];
      HeldElsewhere(c, f, g, off + n, items[1..]);
    }
  }

  /** Round trip: entries written back to back into cleared space are recovered in order by walking from
      the first one with the `consumed` that each read returns. */
  lemma WalkRecovers(c: Codec, file: seq<byte>, off: nat, items: seq<Item>, end: nat)
    requires Faithful(c) && AllFit(c, items) && end == off + Length(items) <= |file|
    requires end + 2 <= |file| ==> file[end] == 0 && file[end + 1] == 0
    ensures Walk(c, WriteAll(c, file, off, items), off) == Payloads(items)
  {
    var after := WriteAll(c, file, off, items);
    WriteAllHolds(c, file, off, items);
    HeldIsRead(c, after, off, items);
    WalkEnds(c, after, off, end, Payloads(items));
  }

  /** Rollback of a batch: the header at each planned offset is overwritten with zeros. */
  function ZeroHeaders(file: seq<byte>, plan: seq<nat>): (r: seq<byte>)
    requires forall i :: 0 <= i < |plan| ==> plan[i] + PREFIX <= |file|
    ensures |r| == |file|
  {
    if plan == [] then file else Splice(ZeroHeaders(file, Front(plan)), Last(plan), Zeros(PREFIX))
  }

  lemma {:induction false} ZeroHeadersEffect(file: seq<byte>, plan: seq<nat>, i: nat)
    requires forall k :: 0 <= k < |plan| ==> plan[k] + PREFIX <= |file|
    requires i < |file|
    ensures ZeroHeaders(file, plan)[i] == file[i] || ZeroHeaders(file, plan)[i] == 0
    ensures (forall k :: 0 <= k < |plan| ==> i < plan[k]) ==> ZeroHeaders(file, plan)[i] == file[i]
    ensures forall k :: 0 <= k < |plan| && plan[k] <= i < plan[k] + PREFIX ==> ZeroHeaders(file, plan)[i] == 0
  {
    if plan != [] {
      ZeroHeadersEffect(file, Front(plan), i);
      var before, at := ZeroHeaders(file, Front(plan)), Last(plan);
      var after := Splice(before, at, Zeros(PREFIX));
      if at <= i < at + PREFIX {
        assert after[at..at + PREFIX][i - at] == 0;
      }
    }
  }

  lemma OnlyTheBatchChanges(file: seq<byte>, plan: seq<nat>)
    requires plan != [] && forall k :: 0 <= k < |plan| ==> plan[0] <= plan[k] && plan[k] + PREFIX <= |file|
    ensures var after := ZeroHeaders(file, plan);
            forall i :: 0 <= i < |file| ==> (i < plan[0] ==> after[i] == file[i]) && (plan[0] <= i < plan[0] + PREFIX ==> after[i] == 0)
  {
    var after := ZeroHeaders(file, plan);
    forall i | 0 <= i < |file|
      ensures i < plan[0] ==> after[i] == file[i]
      ensures plan[0] <= i < plan[0] + PREFIX ==> after[i] == 0
    {
      ZeroHeadersEffect(file, plan, i);
    }
  }

  /** Whatever part of a trailing batch had been written, zeroing the headers at its planned offsets makes
      the walk return exactly the entries before the batch. */
  lemma RollbackRestores(c: Codec, file: seq<byte>, off: nat, kept: seq<Item>, plan: seq<nat>)
    requires Faithful(c) && Holds(c, file, off, kept)
    requires plan != [] && plan[0] == off + Length(kept)
    requires forall k :: 0 <= k < |plan| ==> plan[0] <= plan[k] && plan[k] + PREFIX <= |file|
    ensures Walk(c, ZeroHeaders(file, plan), off) == Payloads(kept)
  {
    OnlyTheBatchChanges(file, plan);
    ClearedBehind(c, file, ZeroHeaders(file, plan), off, kept, plan[0]);
  }

  /** The walk of a file that still holds the kept entries and is cleared right behind them. */
  lemma ClearedBehind(c: Codec, file: seq<byte>, after: seq<byte>, off: nat, kept: seq<Item>, end: nat)
    requires Faithful(c) && Holds(c, file, off, kept) && |after| == |file| && end == off + Length(kept)
    requires forall i :: 0 <= i < |file| ==> (i < end ==> after[i] == file[i]) && (end <= i < end + PREFIX ==> after[i] == 0)
    ensures Walk(c, after, off) == Payloads(kept)
  {
    HeldElsewhere(c, file, after, off, kept);
    HeldIsRead(c, after, off, kept);
    WalkEnds(c, after, off, end, Payloads(kept));
  }

  // ----- The mapped file -----

  datatype Block = Block(id: nat, file: nat, offset: nat, limit: nat)

  method CopyInto(mmap: array<byte>, at: nat, bytes: seq<byte>)
    requires at + |bytes| <= mmap.Length
    modifies mmap
    ensures mmap[..] == Splice(old(mmap[..]), at, bytes)
  {
    var i := 0;
    while i < |bytes|
      invariant i <= |bytes|
      invariant forall k :: 0 <= k < mmap.Length ==>
                  mmap[k] == if at <= k < at + i then bytes[k - at] else old(mmap[k])
    {
      mmap[at + i] := bytes[i];
      i := i + 1;
    }
    ghost var after := Splice(old(mmap[..]), at, bytes);
    forall k | 0 <= k < mmap.Length ensures mmap[..][k] == after[k] {
      if at <= k < at + |bytes| { assert after[at..at + |bytes|][k - at] == bytes[k - at]; }
    }
  }

  /** `Block::write`. The source asserts (in debug builds) that the entry stays within the block. */
  method Write(c: Codec, mmap: array<byte>, block: Block, inBlock: nat, item: Item) returns (ok: bool)
    requires SumsFnv(c)
    requires inBlock + PREFIX + |item.data| <= block.limit && block.offset + block.limit <= mmap.Length
    modifies mmap
    ensures ok <==> Fits(c, item)
    ensures ok ==> mmap[..] == Splice(old(mmap[..]), block.offset + inBlock, Frame(c, item))
    ensures !ok ==> mmap[..] == old(mmap[..])
  {
    var checksum := Checksum64(item.data);
    var metaBytes := c.enc(Meta(|item.data|, item.owner, item.next, checksum));
    if |metaBytes| > PREFIX - 2 {
      return false;
    }
    var buffer := new byte[PREFIX](_ => 0);
    buffer[0] := (|metaBytes| % 256) as byte;
    buffer[1] := (|metaBytes| / 256) as byte;
    CopyInto(buffer, 2, metaBytes);
    var combined := buffer[..] + item.data;
    assert combined == Frame(c, item);
    CopyInto(mmap, block.offset + inBlock, combined);
    return true;
  }

  /** `Block::read`. */
  method Read(c: Codec, mmap: array<byte>, block: Block, inBlock: nat) returns (r: ReadResult)
    requires SumsFnv(c)
    ensures r == ReadAt(c, mmap[..], block.offset + inBlock)
  {
    var off := block.offset + inBlock;
    if off + PREFIX > mmap.Length {
      return Err(OutOfRange);
    }
    var buffer := mmap[off..off + PREFIX];
    var len := buffer[0] as int + 256 * (buffer[1] as int);
    if len == 0 || len > PREFIX - 2 {
      return Err(BadLength);
    }
    SubSlice(mmap[..], off, off + PREFIX, 2, 2 + len);
    assert buffer == mmap[..][off..off + PREFIX];
    var decoded := c.dec(buffer[2..2 + len]);
    if decoded.None? {
      return Err(BadMetadata);
    }
    var m := decoded.value;
    if off + PREFIX + m.readSize > mmap.Length {
      return Err(OutOfRange);
    }
    var data := mmap[off + PREFIX..off + PREFIX + m.readSize];
    assert data == mmap[..][off + PREFIX..off + PREFIX + m.readSize];
    var checksum := Checksum64(data);
    if checksum != m.checksum {
      return Err(ChecksumMismatch);
    }
    return Ok(data, PREFIX + m.readSize);
  }

  method ZeroRange(mmap: array<byte>, block: Block, inBlock: nat, size: nat)
    requires block.offset + inBlock + size <= mmap.Length
    modifies mmap
    ensures mmap[..] == Splice(old(mmap[..]), block.offset + inBlock, Zeros(size))
  {
    if size == 0 {
      assert Splice(mmap[..], block.offset + inBlock, Zeros(0)) == mmap[..];
      return;
    }
    CopyInto(mmap, block.offset + inBlock, Zeros(size));
  }
}
