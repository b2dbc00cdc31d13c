/** Ext2::get_node: where an i-node lies on the disk, and the file it describes. */
module Inode {
  import opened BlockIO
  import opened Ext2

  const NODE_BYTES: nat := 128

  /** What mounting reads from the super block and the group table. */
  datatype Mount = Mount(blockSize: nat, nodes: nat, perGroup: nat, nodeSize: nat, tables: seq<nat>)

  predicate MountOk(m: Mount) {
    && 0 < m.blockSize && m.blockSize % SECTOR == 0
    && 0 < m.perGroup && NODE_BYTES <= m.nodeSize
    && m.nodes <= |m.tables| * m.perGroup
  }

  function GroupOf(m: Mount, number: nat): (g: nat)
    requires MountOk(m) && 0 < number <= m.nodes
    ensures g < |m.tables|
  {
    Within(number - 1, m.perGroup, |m.tables|);
    Quotient(number - 1, m.perGroup)
  }

  lemma Within(i: nat, n: nat, groups: nat)
    requires 0 < n && i < groups * n
    ensures Quotient(i, n) < groups
  {
    hide Quotient;
    var q := Quotient(i, n);
    assert i == q * n + Rest(i, n);
    assert q >= groups ==> q * n >= groups * n;
  }

  /** The offset of an i-node: its group's table, then its index in the group. */
  function NodeOffset(m: Mount, number: nat): nat
    requires MountOk(m) && 0 < number <= m.nodes
  {
    m.tables[GroupOf(m, number)] * m.blockSize + Rest(number - 1, m.perGroup) * m.nodeSize
  }

  /** The tables of two groups do not overlap. */
  ghost predicate TablesApart(m: Mount) {
    forall g: nat, h: nat {:trigger m.tables[g], m.tables[h]} :: g < |m.tables| && h < |m.tables| && g != h ==>
      || m.tables[g] * m.blockSize + m.perGroup * m.nodeSize <= m.tables[h] * m.blockSize
      || m.tables[h] * m.blockSize + m.perGroup * m.nodeSize <= m.tables[g] * m.blockSize
  }

  /** Two i-nodes never share a byte. */
  lemma NodesApart(m: Mount, a: nat, b: nat)
    requires MountOk(m) && TablesApart(m) && 0 < a <= m.nodes && 0 < b <= m.nodes && a != b
    ensures NodeOffset(m, a) + m.nodeSize <= NodeOffset(m, b) || NodeOffset(m, b) + m.nodeSize <= NodeOffset(m, a)
  {
    hide Quotient, Rest;
    var i, j := Rest(a - 1, m.perGroup), Rest(b - 1, m.perGroup);
    EntriesApart(i, j, m.perGroup, m.nodeSize);
    EntriesApart(j, i, m.perGroup, m.nodeSize);
    var ta, tb := m.tables[GroupOf(m, a)], m.tables[GroupOf(m, b)];
    if GroupOf(m, a) == GroupOf(m, b) {
      assert i != j;
    }
  }

  /** In a table of n entries, entry i ends before entry j starts if i < j, and all end
      within the table. */
  lemma EntriesApart(i: nat, j: nat, n: nat, size: nat)
    requires i < n && j < n
    ensures i * size + size <= n * size
    ensures i < j ==> i * size + size <= j * size
  {
    assert i * size + size == (i + 1) * size;
    assert (i + 1) * size <= n * size;
    assert i < j ==> (i + 1) * size <= j * size;
  }

  /** The fields of the i-node that reading a file uses. */
  function Decode(blockSize: nat, b: seq<byte>): (dev: Device)
    requires |b| == NODE_BYTES
    ensures dev.File? && dev.blockSize == blockSize && |dev.direct| == 12 && dev.size < WORD
  {
    File(blockSize, WordAt(b, 4), WordAt(b, 28),
         [WordAt(b, 40), WordAt(b, 44), WordAt(b, 48), WordAt(b, 52), WordAt(b, 56), WordAt(b, 60),
          WordAt(b, 64), WordAt(b, 68), WordAt(b, 72), WordAt(b, 76), WordAt(b, 80), WordAt(b, 84)],
         WordAt(b, 88))
  }

  function WordAt(b: seq<byte>, at: nat): (w: nat)
    requires at + 4 <= |b|
    ensures w < WORD
  {
    Word(b[at..][..4])
  }

  /** The bytes of an i-node, the file it describes, and whether that is a directory. */
  function NodeData(disk: seq<byte>, m: Mount, number: nat): (b: seq<byte>)
    requires MountOk(m) && 0 < number <= m.nodes && NodeOffset(m, number) + NODE_BYTES <= |disk|
    ensures |b| == NODE_BYTES
  {
    disk[NodeOffset(m, number)..][..NODE_BYTES]
  }

  function FileOf(disk: seq<byte>, m: Mount, number: nat): (dev: Device)
    requires MountOk(m) && 0 < number <= m.nodes && NodeOffset(m, number) + NODE_BYTES <= |disk|
    ensures DeviceOk(dev)
  {
    Decode(m.blockSize, NodeData(disk, m, number))
  }

  /** The upper four bits of the mode are 4. */
  predicate IsDirectory(b: seq<byte>)
    requires |b| == NODE_BYTES
  {
    Half(b[..2]) / 0x1000 == 4
  }

  /** A number that fails one of its assertions, or a table beyond the disk, is the
      caller's fault. */
  method GetNode(disk: seq<byte>, m: Mount, number: nat) returns (dev: Device, isDir: bool)
    requires DiskOk(disk) && MountOk(m) && 0 < number <= m.nodes
    requires NodeOffset(m, number) + NODE_BYTES <= |disk|
    ensures DeviceOk(dev) && dev == FileOf(disk, m, number) && isDir == IsDirectory(NodeData(disk, m, number))
  {
    hide NodeOffset, Decode, IsDirectory;
    var at := NodeOffset(m, number) % WORD;
    var data := new byte[NODE_BYTES](_ => 0);
    DiskSlice(disk, at, NODE_BYTES);
    var count := ReadAll(disk, Ide, at, NODE_BYTES, data, 0);
    assert data[..] == NodeData(disk, m, number);
    return Decode(m.blockSize, data[..]), IsDirectory(data[..]);
  }

  /** A file that the twelve direct and the one indirect block can reach is small enough for
      the offsets of a directory not to wrap. */
  lemma SmallFile(disk: seq<byte>, dev: Device)
    requires Readable(disk, dev) && dev.blockSize <= 0x1_0000
    ensures |Contents(disk, dev)| <= OFFSET_LIMIT
  {
    var n := Blocks(dev);
    if 0 < n {
      assert BlockOk(disk, dev, n - 1);
      Reach(dev.blockSize, n);
    }
  }

  lemma Reach(bs: nat, n: nat)
    requires bs <= 0x1_0000 && n <= 12 + bs / 4
    ensures n * bs <= OFFSET_LIMIT
  {
    assert n <= 0x400C;
    assert n * bs <= 0x400C * bs;
  }
}
