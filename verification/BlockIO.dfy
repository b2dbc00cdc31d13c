/** BlockIO::read and read_all over the disk driver, and over ext2 files whose blocks are
    themselves read through the disk driver. */
module BlockIO {

  newtype byte = x: int | 0 <= x < 256

  const WORD: nat := 0x1_0000_0000
  const SECTOR: nat := 512

  /** The disk driver, or a file: the size and sector count of its i-node, twelve direct
      block numbers and one indirect block. */
  datatype Device =
    | Ide
    | File(blockSize: nat, size: nat, sectors: nat, direct: seq<nat>, indirect: nat)

  predicate DiskOk(disk: seq<byte>) {
    |disk| % SECTOR == 0 && |disk| < WORD
  }

  predicate DeviceOk(dev: Device) {
    dev.File? ==> 0 < dev.blockSize && dev.blockSize % SECTOR == 0 && dev.size < WORD && |dev.direct| == 12
  }

  function BlockSize(dev: Device): (r: nat)
    requires DeviceOk(dev)
    ensures 0 < r
  {
    if dev.Ide? then SECTOR else dev.blockSize
  }

  /** The driver does not know the size of the disk and claims the largest offset. */
  function Size(dev: Device): nat {
    if dev.Ide? then WORD - 1 else dev.size
  }

  // ----- what the bytes are

  /** A 32-bit number, least significant byte first. */
  function Word(b: seq<byte>): nat
    requires |b| == 4
  {
    b[0] as nat + 0x100 * (b[1] as nat) + 0x1_0000 * (b[2] as nat) + 0x100_0000 * (b[3] as nat)
  }

  /** Where the disk holds the number of file block k, for k past the direct ones. */
  function EntryAt(dev: Device, k: nat): nat
    requires dev.File? && 12 <= k
  {
    dev.indirect * dev.blockSize + (k - 12) * 4
  }

  /** The block can be addressed and all its bytes are on the disk. */
  predicate BlockOk(disk: seq<byte>, dev: Device, k: nat)
    requires DeviceOk(dev)
  {
    match dev
    case Ide => (k + 1) * SECTOR <= |disk|
    case File(bs, _, sectors, _, _) =>
      && k < sectors / (bs / SECTOR)
      && (k < 12 || (k < 12 + bs / 4 && EntryAt(dev, k) + 4 <= |disk|))
      && (Number(disk, dev, k) + 1) * bs <= |disk|
  }

  /** The disk block number of file block k. */
  function Number(disk: seq<byte>, dev: Device, k: nat): nat
    requires DeviceOk(dev) && dev.File? && (12 <= k ==> EntryAt(dev, k) + 4 <= |disk|)
  {
    if k < 12 then dev.direct[k] else Word(disk[EntryAt(dev, k)..][..4])
  }

  function Block(disk: seq<byte>, dev: Device, k: nat): (b: seq<byte>)
    requires DeviceOk(dev) && BlockOk(disk, dev, k)
    ensures |b| == BlockSize(dev)
  {
    var n := if dev.Ide? then k else Number(disk, dev, k);
    disk[n * BlockSize(dev)..][..BlockSize(dev)]
  }

  /** The first n blocks, one after the other. */
  function Flat(disk: seq<byte>, dev: Device, n: nat): (b: seq<byte>)
    requires DeviceOk(dev) && forall k: nat :: k < n ==> BlockOk(disk, dev, k)
    ensures |b| == n * BlockSize(dev)
  {
    if n == 0 then []
    else
      OneMore(n, BlockSize(dev));
      Flat(disk, dev, n - 1) + Block(disk, dev, n - 1)
  }

  lemma OneMore(n: nat, bs: nat)
    requires 0 < n
    ensures n * bs == (n - 1) * bs + bs
  {
  }

  /** The block that holds byte i, and the position of the byte in it. */
  function Quotient(i: nat, bs: nat): nat
    requires 0 < bs
  {
    i / bs
  }

  function Rest(i: nat, bs: nat): (r: nat)
    requires 0 < bs
    ensures r < bs && i == Quotient(i, bs) * bs + r
  {
    i % bs
  }

  lemma QuotientIs(i: nat, bs: nat, q: nat, r: nat)
    requires 0 < bs && r < bs && i == q * bs + r
    ensures Quotient(i, bs) == q && Rest(i, bs) == r
  {
    hide Quotient, Rest;
    var d, m := Quotient(i, bs), Rest(i, bs);
    assert (q - d) * bs == m - r;
    assert q - d >= 1 ==> (q - d) * bs >= bs;
    assert q - d <= -1 ==> (q - d) * bs <= 0 - bs;
  }

  /** All blocks that hold one of the cnt bytes from offset on can be read. */
  ghost predicate Covered(disk: seq<byte>, dev: Device, offset: nat, cnt: nat)
    requires DeviceOk(dev)
  {
    forall i: nat {:trigger ByteOk(disk, dev, i)} :: offset <= i < offset + cnt ==> ByteOk(disk, dev, i)
  }

  predicate ByteOk(disk: seq<byte>, dev: Device, i: nat)
    requires DeviceOk(dev)
  {
    BlockOk(disk, dev, Quotient(i, BlockSize(dev)))
  }

  /** Byte i of the device. */
  function ByteAt(disk: seq<byte>, dev: Device, i: nat): byte
    requires DeviceOk(dev) && ByteOk(disk, dev, i)
  {
    Block(disk, dev, Quotient(i, BlockSize(dev)))[Rest(i, BlockSize(dev))]
  }

  /** The cnt bytes from offset on. */
  ghost function Slice(disk: seq<byte>, dev: Device, offset: nat, cnt: nat): (b: seq<byte>)
    requires DeviceOk(dev) && Covered(disk, dev, offset, cnt)
    ensures |b| == cnt
    ensures forall i {:trigger b[i]} :: 0 <= i < cnt ==> ByteOk(disk, dev, offset + i) && b[i] == ByteAt(disk, dev, offset + i)
  {
    assert forall i: nat {:trigger ByteOk(disk, dev, offset + i)} :: i < cnt ==> ByteOk(disk, dev, offset + i);
    seq(cnt, i requires 0 <= i < cnt && ByteOk(disk, dev, offset + i) => ByteAt(disk, dev, offset + i))
  }

  // ----- reading

  /** The buffer after data was stored at position at. */
  predicate Stored(before: seq<byte>, after: seq<byte>, at: nat, data: seq<byte>) {
    at + |data| <= |before| && after == before[..at] + data + before[at + |data|..]
  }

  /** The bytes from offset to the end of its block. */
  function Room(dev: Device, offset: nat): (r: nat)
    requires DeviceOk(dev)
    ensures 0 < r
  {
    BlockSize(dev) - Rest(offset, BlockSize(dev))
  }

  lemma SizeFits(dev: Device)
    requires DeviceOk(dev)
    ensures Size(dev) < WORD
  {
  }

  function Min(a: nat, b: nat): nat {
    if a < b then a else b
  }

  /** Part of one block is a slice of the device. */
  lemma PieceIsSlice(disk: seq<byte>, dev: Device, offset: nat, n: nat)
    requires DeviceOk(dev) && ByteOk(disk, dev, offset)
    requires Rest(offset, BlockSize(dev)) + n <= BlockSize(dev)
    ensures Covered(disk, dev, offset, n)
    ensures Block(disk, dev, Quotient(offset, BlockSize(dev)))[Rest(offset, BlockSize(dev))..][..n] == Slice(disk, dev, offset, n)
  {
    hide Quotient, Rest, BlockOk, Block;
    var bs := BlockSize(dev);
    forall i: nat | offset <= i < offset + n
      ensures ByteOk(disk, dev, i) && ByteAt(disk, dev, i) == Block(disk, dev, Quotient(offset, bs))[Rest(offset, bs)..][i - offset]
    {
      QuotientIs(i, bs, Quotient(offset, bs), Rest(offset, bs) + (i - offset));
    }
  }

  lemma NothingCovered(disk: seq<byte>, dev: Device, offset: nat)
    requires DeviceOk(dev)
    ensures Covered(disk, dev, offset, 0)
  {
  }

  lemma CoveredByte(disk: seq<byte>, dev: Device, offset: nat, m: nat, i: nat)
    requires DeviceOk(dev) && Covered(disk, dev, offset, m) && offset <= i < offset + m
    ensures ByteOk(disk, dev, i)
  {
  }

  /** Two slices one after the other are one slice. */
  lemma SlicesJoin(disk: seq<byte>, dev: Device, offset: nat, m: nat, n: nat)
    requires DeviceOk(dev) && Covered(disk, dev, offset, m + n)
    ensures Covered(disk, dev, offset, m) && Covered(disk, dev, offset + m, n)
    ensures Slice(disk, dev, offset, m) + Slice(disk, dev, offset + m, n) == Slice(disk, dev, offset, m + n)
  {
    forall i: nat | offset <= i < offset + m + n ensures ByteOk(disk, dev, i) {}
    assert Covered(disk, dev, offset, m) && Covered(disk, dev, offset + m, n);
    var b := Slice(disk, dev, offset + m, n);
    forall i | 0 <= i < n ensures b[i] == Slice(disk, dev, offset, m + n)[m + i] {}
  }

  lemma StoredNothing(a: seq<byte>, at: nat)
    requires at <= |a|
    ensures Stored(a, a, at, [])
  {
  }

  lemma StoredOne(a: seq<byte>, at: nat, x: byte)
    requires at < |a|
    ensures Stored(a, a[at := x], at, [x])
  {
  }

  lemma StoredSize(a: seq<byte>, b: seq<byte>, at: nat, d: seq<byte>)
    requires Stored(a, b, at, d)
    ensures |a| == |b|
  {
  }

  lemma StoredTwice(a: seq<byte>, b: seq<byte>, c: seq<byte>, at: nat, d: seq<byte>, e: seq<byte>)
    requires Stored(a, b, at, d) && Stored(b, c, at + |d|, e)
    ensures Stored(a, c, at, d + e)
  {
    assert b[..at + |d|] == a[..at] + d;
    assert b[at + |d| + |e|..] == a[at + |d| + |e|..];
  }

  /** A slice stored behind another one: together they are one stored slice. */
  lemma StoredMore(disk: seq<byte>, dev: Device, offset: nat, m: nat, total: nat, count: nat,
                   a: seq<byte>, b: seq<byte>, c: seq<byte>, at: nat)
    requires DeviceOk(dev) && Covered(disk, dev, offset, m) && total + count <= m
    requires Covered(disk, dev, offset, total) && Covered(disk, dev, offset + total, count)
    requires Stored(a, b, at, Slice(disk, dev, offset, total))
    requires Stored(b, c, at + total, Slice(disk, dev, offset + total, count))
    ensures Covered(disk, dev, offset, total + count)
    ensures Stored(a, c, at, Slice(disk, dev, offset, total + count))
  {
    hide Stored, Slice, Covered, ByteOk, DeviceOk;
    SlicesJoin(disk, dev, offset, total + count, m - total - count);
    SlicesJoin(disk, dev, offset, total, count);
    StoredTwice(a, b, c, at, Slice(disk, dev, offset, total), Slice(disk, dev, offset + total, count));
  }

  /** Ide::read_block and Node::read_block; a block number that fails one of their
      assertions is the caller's fault. */
  method ReadBlock(disk: seq<byte>, dev: Device, k: nat, buffer: array<byte>, at: nat)
    requires DiskOk(disk) && DeviceOk(dev) && BlockOk(disk, dev, k) && at + BlockSize(dev) <= buffer.Length
    modifies buffer
    ensures Stored(old(buffer[..]), buffer[..], at, Block(disk, dev, k))
    decreases if dev.Ide? then 0 else 1, 2
  {
    match dev
    case Ide =>
      var sector := disk[k * SECTOR..][..SECTOR];
      Copy(sector, 0, buffer, at, SECTOR);
      assert sector[0..SECTOR] == sector;
    case File(bs, _, _, _, _) =>
      var number := ReadNumber(disk, dev, k);
      FileBlock(disk, dev, k);
      var count := ReadAll(disk, Ide, number * bs % WORD, bs, buffer, at);
  }

  /** Block k of a file is a slice of the disk, and its offset does not wrap. */
  lemma FileBlock(disk: seq<byte>, dev: Device, k: nat)
    requires DiskOk(disk) && DeviceOk(dev) && dev.File? && BlockOk(disk, dev, k)
    ensures var at, bs := Number(disk, dev, k) * dev.blockSize, dev.blockSize;
      && at + bs <= |disk| && at % WORD == at
      && Covered(disk, Ide, at, bs) && Block(disk, dev, k) == Slice(disk, Ide, at, bs)
  {
    var number, bs := Number(disk, dev, k), dev.blockSize;
    assert (number + 1) * bs == number * bs + bs;
    DiskSlice(disk, number * bs, bs);
  }

  /** The number of file block k: direct, or read from the indirect block. */
  method ReadNumber(disk: seq<byte>, dev: Device, k: nat) returns (number: nat)
    requires DiskOk(disk) && DeviceOk(dev) && dev.File? && BlockOk(disk, dev, k)
    ensures number == Number(disk, dev, k)
    decreases 1, 1
  {
    if k < 12 {
      return dev.direct[k];
    }
    hide EntryAt;
    var at := EntryAt(dev, k);
    number := ReadWord(disk, at % WORD);
  }

  /** A 32-bit number read from the disk. */
  method ReadWord(disk: seq<byte>, at: nat) returns (w: nat)
    requires DiskOk(disk) && at + 4 <= |disk|
    ensures w == Word(disk[at..][..4])
    decreases 1, 0
  {
    var word := new byte[4](_ => 0);
    DiskSlice(disk, at, 4);
    var count := ReadAll(disk, Ide, at, 4, word, 0);
    assert word[..] == disk[at..][..4];
    return Word(word[..]);
  }

  /** memcpy */
  method Copy(from: seq<byte>, start: nat, buffer: array<byte>, at: nat, n: nat)
    requires start + n <= |from| && at + n <= buffer.Length
    modifies buffer
    ensures Stored(old(buffer[..]), buffer[..], at, from[start..start + n])
  {
    hide Stored;
    StoredNothing(buffer[..], at);
    assert from[start..start] == [];
    var i := 0;
    while i < n
      invariant i <= n
      invariant Stored(old(buffer[..]), buffer[..], at, from[start..start + i])
    {
      ghost var mid := buffer[..];
      buffer[at + i] := from[start + i];
      assert buffer[..] == mid[at + i := from[start + i]];
      StoredOne(mid, at + i, from[start + i]);
      StoredTwice(old(buffer[..]), mid, buffer[..], at, from[start..start + i], [from[start + i]]);
      i := i + 1;
      assert from[start..start + i] == from[start..start + i - 1] + [from[start + i - 1]];
    }
  }

  /** The disk driver's device is the disk itself. */
  lemma DiskSlice(disk: seq<byte>, offset: nat, n: nat)
    requires DiskOk(disk) && offset + n <= |disk|
    ensures Covered(disk, Ide, offset, n) && Slice(disk, Ide, offset, n) == disk[offset..][..n]
  {
    forall i: nat | offset <= i < offset + n
      ensures ByteOk(disk, Ide, i) && ByteAt(disk, Ide, i) == disk[i]
    {
      var k := Quotient(i, SECTOR);
      assert i == k * SECTOR + Rest(i, SECTOR);
      assert (k + 1) * SECTOR <= |disk|;
    }
  }

  /** At most one block: -1 beyond the end, 0 at the end, else the number of bytes read. */
  method Read(disk: seq<byte>, dev: Device, offset: nat, desired: nat, buffer: array<byte>, at: nat)
    returns (count: int)
    requires DiskOk(disk) && DeviceOk(dev) && offset < WORD && desired < WORD
    requires offset < Size(dev) ==> ByteOk(disk, dev, offset) && at + Min(desired, Size(dev) - offset) <= buffer.Length
    modifies buffer
    ensures Size(dev) <= offset ==> buffer[..] == old(buffer[..]) && count == (if Size(dev) < offset then -1 else 0)
    ensures offset < Size(dev) ==>
      && count == Min(Min(desired, Size(dev) - offset), Room(dev, offset))
      && Covered(disk, dev, offset, count)
      && Stored(old(buffer[..]), buffer[..], at, Slice(disk, dev, offset, count))
    decreases if dev.Ide? then 0 else 1, 3
  {
    var size, bs := Size(dev), BlockSize(dev);
    if offset > size {
      return -1;
    }
    if offset == size {
      return 0;
    }
    var n := Min(desired, size - offset);
    var number, start := Quotient(offset, bs), Rest(offset, bs);
    var actual := Min(bs - start, n);
    PieceIsSlice(disk, dev, offset, actual);
    if actual == bs {
      assert start == 0;
      ReadBlock(disk, dev, number, buffer, at);
      assert Block(disk, dev, number) == Block(disk, dev, number)[0..][..bs];
    } else {
      var temp := new byte[bs](_ => 0);
      ReadBlock(disk, dev, number, temp, 0);
      assert temp[..] == Block(disk, dev, number);
      Copy(temp[..], start, buffer, at, actual);
      assert temp[..][start..start + actual] == Block(disk, dev, number)[start..][..actual];
    }
    return actual;
  }

  /** All of the min(n, size - offset) bytes from offset on, however many blocks they span.
      Asking for nothing gives 0 even beyond the end. */
  method ReadAll(disk: seq<byte>, dev: Device, offset: nat, n: nat, buffer: array<byte>, at: nat)
    returns (total: int)
    requires DiskOk(disk) && DeviceOk(dev) && offset < WORD && n < WORD
    requires offset < Size(dev) ==>
      var m := Min(n, Size(dev) - offset); Covered(disk, dev, offset, m) && at + m <= buffer.Length
    modifies buffer
    ensures Size(dev) <= offset ==> buffer[..] == old(buffer[..]) && total == (if Size(dev) < offset && 0 < n then -1 else 0)
    ensures offset < Size(dev) ==>
      && total == Min(n, Size(dev) - offset)
      && Stored(old(buffer[..]), buffer[..], at, Slice(disk, dev, offset, total))
    decreases if dev.Ide? then 0 else 1, 4
  {
    hide Stored, Slice, Covered, ByteOk, DiskOk, DeviceOk, Room, Size;
    SizeFits(dev);
    total := 0;
    var left, from := n, offset;
    ghost var m := if offset < Size(dev) then Min(n, Size(dev) - offset) else 0;
    if offset < Size(dev) { StoredNothing(buffer[..], at); } else { NothingCovered(disk, dev, offset); }
    SlicesJoin(disk, dev, offset, 0, m);
    while left > 0
      invariant 0 <= total <= m && left == n - total && from == offset + total
      invariant Covered(disk, dev, offset, m) && Covered(disk, dev, offset, total)
      invariant offset < Size(dev) ==> Stored(old(buffer[..]), buffer[..], at, Slice(disk, dev, offset, total))
      invariant Size(dev) <= offset ==> buffer[..] == old(buffer[..])
      decreases left
    {
      ghost var before := buffer[..];
      SlicesJoin(disk, dev, offset, total, m - total);
      if from < Size(dev) { CoveredByte(disk, dev, offset, m, from); }
      var count := Read(disk, dev, from, left, buffer, at + total);
      if count < 0 {
        return count;
      }
      if count == 0 {
        return total;
      }
      StoredMore(disk, dev, offset, m, total, count, old(buffer[..]), before, buffer[..], at);
      total := total + count;
      from := from + count;
      left := left - count;
    }
  }

  // ----- the file as one sequence of bytes

  /** Every block that holds part of the file can be read. */
  ghost predicate Readable(disk: seq<byte>, dev: Device) {
    && DiskOk(disk) && DeviceOk(dev) && dev.File?
    && forall k: nat {:trigger BlockOk(disk, dev, k)} :: k * dev.blockSize < dev.size ==> BlockOk(disk, dev, k)
  }

  function Blocks(dev: Device): (n: nat)
    requires DeviceOk(dev) && dev.File?
    ensures dev.size <= n * dev.blockSize
    ensures forall k: nat :: k < n ==> k * dev.blockSize < dev.size
  {
    var q := Quotient(dev.size, dev.blockSize);
    var n := if Rest(dev.size, dev.blockSize) == 0 then q else q + 1;
    assert (q + 1) * dev.blockSize == q * dev.blockSize + dev.blockSize;
    BlocksBelow(dev.size, dev.blockSize, n);
    n
  }

  lemma BlocksBelow(size: nat, bs: nat, n: nat)
    requires 0 < bs && (n == 0 || (n - 1) * bs < size)
    ensures forall k: nat :: k < n ==> k * bs < size
  {
    forall k: nat | k < n ensures k * bs < size {
      assert (n - 1 - k) * bs >= 0;
      assert (n - 1) * bs == k * bs + (n - 1 - k) * bs;
    }
  }

  /** The contents of a file: its blocks in order, cut at its size. */
  function Contents(disk: seq<byte>, dev: Device): (b: seq<byte>)
    requires Readable(disk, dev)
    ensures |b| == dev.size
  {
    Flat(disk, dev, Blocks(dev))[..dev.size]
  }

  lemma {:induction false} FlatAt(disk: seq<byte>, dev: Device, n: nat, i: nat)
    requires DeviceOk(dev) && (forall k: nat :: k < n ==> BlockOk(disk, dev, k)) && i < n * BlockSize(dev)
    ensures ByteOk(disk, dev, i) && Flat(disk, dev, n)[i] == ByteAt(disk, dev, i)
  {
    hide Quotient, Rest, BlockOk, Block;
    var bs := BlockSize(dev);
    assert n * bs == (n - 1) * bs + bs;
    if i < (n - 1) * bs {
      FlatAt(disk, dev, n - 1, i);
    } else {
      QuotientIs(i, bs, n - 1, i - (n - 1) * bs);
    }
  }

  /** Reading through both layers of blocks gives the bytes of the one flat sequence. */
  lemma SliceOfContents(disk: seq<byte>, dev: Device, offset: nat, n: nat)
    requires Readable(disk, dev) && offset + n <= dev.size
    ensures Covered(disk, dev, offset, n)
    ensures Slice(disk, dev, offset, n) == Contents(disk, dev)[offset..offset + n]
  {
    hide BlockOk, Block, Flat, Blocks;
    forall i: nat | offset <= i < offset + n
      ensures ByteOk(disk, dev, i) && ByteAt(disk, dev, i) == Contents(disk, dev)[i]
    {
      FlatAt(disk, dev, Blocks(dev), i);
    }
  }

  // ----- the read system call

  /** What successive reads of the sizes in ns return, from position offset on. */
  function Served(c: seq<byte>, offset: nat, ns: seq<nat>): seq<byte>
    requires offset <= |c|
    decreases ns
  {
    if ns == [] then []
    else
      var m := Min(ns[0], |c| - offset);
      c[offset..offset + m] + Served(c, offset + m, ns[1..])
  }

  function Sum(ns: seq<nat>): nat {
    if ns == [] then 0 else ns[0] + Sum(ns[1..])
  }

  lemma Adjoin(c: seq<byte>, i: nat, j: nat, k: nat)
    requires i <= j <= k <= |c|
    ensures c[i..j] + c[j..k] == c[i..k]
  {
  }

  /** The slices follow one another without gap or overlap, up to the end of the file. */
  lemma {:induction false} ConsecutiveSlices(c: seq<byte>, offset: nat, ns: seq<nat>)
    requires offset <= |c|
    ensures Served(c, offset, ns) == c[offset..offset + Min(Sum(ns), |c| - offset)]
    decreases ns
  {
    if ns != [] {
      var m := Min(ns[0], |c| - offset);
      ConsecutiveSlices(c, offset + m, ns[1..]);
      Adjoin(c, offset, offset + m, offset + Min(Sum(ns), |c| - offset));
    } else {
      assert c[offset..offset] == [];
    }
  }

  /** An open file; the checks of the descriptor number and of the buffer's address, which
      come before, are not part of this model. */
  class FileDescriptor {
    const node: Device
    var offset: nat

    constructor (node: Device)
      ensures this.node == node && offset == 0
    {
      this.node := node;
      offset := 0;
    }

    /** From an offset within the file, read returns the next slice and moves behind it.
        From beyond the end it returns -1, as 32 bits, and moves one byte back. */
    method Read(disk: seq<byte>, nbyte: nat, buffer: array<byte>) returns (ret: nat)
      requires Readable(disk, node) && offset < WORD && nbyte < WORD
      requires offset <= node.size ==> Min(nbyte, node.size - offset) <= buffer.Length
      modifies this`offset, buffer
      ensures old(offset) <= node.size ==>
        && ret == Min(nbyte, node.size - old(offset)) && offset == old(offset) + ret
        && Stored(old(buffer[..]), buffer[..], 0, Contents(disk, node)[old(offset)..offset])
      ensures node.size < old(offset) ==>
        ret == WORD - 1 && offset == old(offset) - 1 && buffer[..] == old(buffer[..])
    {
      hide Covered, Slice, Stored, Contents, Clipped, BlockOk;
      var n := Clipped(offset, nbyte, node.size);
      if offset < node.size {
        SliceOfContents(disk, node, offset, Min(n, node.size - offset));
      } else if offset == node.size {
        StoredNothing(buffer[..], 0);
        assert Contents(disk, node)[offset..offset] == [];
      }
      var count := ReadAll(disk, node, offset, n, buffer, 0);
      ret := count % WORD;
      offset := (offset + ret) % WORD;
    }
  }

  /** The number of bytes to ask for: all, or those up to the end if offset + n, in 32-bit
      arithmetic, is beyond it. */
  function Clipped(offset: nat, n: nat, size: nat): (r: nat)
    requires offset < WORD && n < WORD && size < WORD
    ensures r < WORD
    ensures offset <= size ==> Min(r, size - offset) == Min(n, size - offset)
    ensures size < offset ==> 0 < r
  {
    if (offset + n) % WORD > size then (size - offset) % WORD else n
  }

  /** One read call for each of the sizes. */
  method ReadEach(disk: seq<byte>, fd: FileDescriptor, sizes: seq<nat>) returns (got: seq<byte>)
    requires Readable(disk, fd.node) && fd.offset <= fd.node.size && forall n :: n in sizes ==> n < WORD
    modifies fd
    ensures got == Served(Contents(disk, fd.node), old(fd.offset), sizes)
    ensures fd.offset == old(fd.offset) + |got| == Min(old(fd.offset) + Sum(sizes), fd.node.size)
    ensures got == Contents(disk, fd.node)[old(fd.offset)..fd.offset]
  {
    hide Contents, Stored, Sum, Served;
    ghost var c, first := Contents(disk, fd.node), fd.offset;
    got := [];
    NothingToSum();
    var i := 0;
    while i < |sizes|
      invariant i <= |sizes| && first <= fd.offset <= |c| && got == c[first..fd.offset]
      invariant fd.offset == Min(first + Sum(sizes[..i]), |c|)
    {
      var buffer := new byte[sizes[i]](_ => 0);
      ghost var before, at := buffer[..], fd.offset;
      assert sizes[i] in sizes;
      var ret := fd.Read(disk, sizes[i], buffer);
      StoredFirst(before, buffer[..], c[at..fd.offset]);
      got := got + buffer[..ret];
      assert c[first..at] + c[at..fd.offset] == c[first..fd.offset];
      SumNext(sizes, i);
      i := i + 1;
    }
    assert sizes[..i] == sizes;
    ConsecutiveSlices(c, first, sizes);
  }

  lemma StoredFirst(before: seq<byte>, after: seq<byte>, data: seq<byte>)
    requires Stored(before, after, 0, data)
    ensures |data| <= |after| && after[..|data|] == data
  {
  }

  lemma NothingToSum()
    ensures Sum([]) == 0
  {
  }

  lemma {:induction false} SumNext(ns: seq<nat>, i: nat)
    requires i < |ns|
    ensures ns[..0] == [] && Sum(ns[..i + 1]) == Sum(ns[..i]) + ns[i]
    decreases i
  {
    if i > 0 {
      SumNext(ns[1..], i - 1);
      assert ns[..i + 1][1..] == ns[1..][..i] && ns[..i][1..] == ns[1..][..i - 1];
    } else {
      assert ns[..1][1..] == [];
    }
  }

  /** A read one byte beyond the end of an empty file: it gives -1 and the offset is zero
      afterwards. */
  method ReadBeyondEnd() returns (fd: FileDescriptor, ret: nat)
    ensures ret == WORD - 1 && fd.offset == 0 && Readable([], fd.node)
  {
    var buffer := new byte[0];
    fd := new FileDescriptor(File(SECTOR, 0, 0, [0, 0, 0, 0, 0, 0, 0, 0, 0, 0, 0, 0], 0));
    fd.offset := 1;
    ret := fd.Read([], 1, buffer);
  }
}
