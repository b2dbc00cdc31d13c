/** Ext2::find: walking a path from a directory, one component at a time. */
module Path {
  import opened BlockIO
  import opened Ext2
  import opened Inode

  const SLASH: byte := 47
  const LONGEST: nat := 256

  /** The file system as find sees it: which i-nodes exist, which are directories, and what
      each directory's file contains. */
  datatype Node = Node(isDir: bool, contents: seq<byte>)

  type Nodes = map<nat, Node>

  /** Where a walk ends. Failed and Endless stop the machine. */
  datatype Outcome =
    | Found(inode: nat)
    | Missing
    | Failed
    | Endless

  // ----- paths as lists of components

  function Run(p: seq<byte>): (n: nat)
    ensures n <= |p| && SLASH !in p[..n] && (n < |p| ==> p[n] == SLASH)
  {
    if p == [] || p[0] == SLASH then 0 else 1 + Run(p[1..])
  }

  /** The names between slashes; no name is empty, however many slashes there are. */
  function Components(p: seq<byte>): (r: seq<seq<byte>>)
    ensures forall x :: x in r ==> x != [] && SLASH !in x
    decreases |p|
  {
    if p == [] then []
    else if p[0] == SLASH then Components(p[1..])
    else [p[..Run(p)]] + Components(p[Run(p)..])
  }

  lemma RunUpTo(p: seq<byte>, q: seq<byte>)
    ensures Run(p + [SLASH] + q) == Run(p)
  {
    if p != [] && p[0] != SLASH {
      assert (p + [SLASH] + q)[1..] == p[1..] + [SLASH] + q;
      RunUpTo(p[1..], q);
    }
  }

  lemma {:induction false} ComponentsSplit(p: seq<byte>, q: seq<byte>)
    ensures Components(p + [SLASH] + q) == Components(p) + Components(q)
    decreases |p|
  {
    var r := p + [SLASH] + q;
    if p == [] {
      assert r[1..] == q;
    } else if p[0] == SLASH {
      assert r[1..] == p[1..] + [SLASH] + q;
      ComponentsSplit(p[1..], q);
    } else {
      var n := Run(p);
      RunUpTo(p, q);
      assert r[..n] == p[..n];
      assert r[n..] == p[n..] + [SLASH] + q;
      ComponentsSplit(p[n..], q);
    }
  }

  // ----- the walk

  /** One component, from where the walk is. */
  function Step(fs: Nodes, at: Outcome, part: seq<byte>): Outcome {
    if !at.Found? then at
    else if LONGEST < |part| then Failed
    else if at.inode !in fs || !fs[at.inode].isDir then Failed
    else
      match Parse(fs[at.inode].contents, 0)
      case Panic => Failed
      case Forever => Endless
      case Ok(es) =>
        var number := Lookup(es, part);
        if number == 0 then Missing else if number in fs then Found(number) else Failed
  }

  function Walk(fs: Nodes, at: Outcome, parts: seq<seq<byte>>): Outcome
    decreases parts
  {
    if parts == [] then at else Walk(fs, Step(fs, at, parts[0]), parts[1..])
  }

  lemma {:induction false} WalkSplit(fs: Nodes, at: Outcome, a: seq<seq<byte>>, b: seq<seq<byte>>)
    ensures Walk(fs, at, a + b) == Walk(fs, Walk(fs, at, a), b)
    decreases a
  {
    if a == [] {
      assert a + b == b;
    } else {
      assert (a + b)[1..] == a[1..] + b;
      WalkSplit(fs, Step(fs, at, a[0]), a[1..], b);
    }
  }

  lemma {:induction false} WalkStays(fs: Nodes, at: Outcome, parts: seq<seq<byte>>)
    requires !at.Found?
    ensures Walk(fs, at, parts) == at
    decreases parts
  {
    if parts != [] { WalkStays(fs, at, parts[1..]); }
  }

  /** Every i-node lies on the disk, and every directory can be read. */
  ghost predicate FsOk(disk: seq<byte>, m: Mount) {
    && DiskOk(disk) && MountOk(m) && m.blockSize <= 0x1_0000
    && forall n: nat {:trigger NodeOffset(m, n)} :: 0 < n <= m.nodes ==>
         && NodeOffset(m, n) + NODE_BYTES <= |disk|
         && (IsDirectory(NodeData(disk, m, n)) ==> Readable(disk, FileOf(disk, m, n)))
  }

  /** The i-nodes of a mounted disk, each directory with the contents of its file. */
  ghost function NodesOf(disk: seq<byte>, m: Mount): (fs: Nodes)
    requires FsOk(disk, m)
    ensures forall n :: n in fs <==> 0 < n <= m.nodes
    ensures forall n :: n in fs ==> NodeOffset(m, n) + NODE_BYTES <= |disk| && fs[n] == NodeOf(disk, m, n)
  {
    map n: nat | 0 < n <= m.nodes :: NodeOf(disk, m, n)
  }

  ghost function NodeOf(disk: seq<byte>, m: Mount, n: nat): Node
    requires MountOk(m) && 0 < n <= m.nodes && NodeOffset(m, n) + NODE_BYTES <= |disk|
  {
    var isDir := IsDirectory(NodeData(disk, m, n));
    Node(isDir, if isDir && Readable(disk, FileOf(disk, m, n)) then Contents(disk, FileOf(disk, m, n)) else [])
  }

  /** while (path[idx] == '/') idx++ */
  method SkipSlashes(path: seq<byte>, idx: nat) returns (next: nat)
    requires idx <= |path|
    ensures idx <= next <= |path| && (next < |path| ==> path[next] != SLASH)
    ensures Components(path[next..]) == Components(path[idx..])
  {
    next := idx;
    while next < |path| && path[next] == SLASH
      invariant idx <= next <= |path| && Components(path[next..]) == Components(path[idx..])
    {
      assert path[next..][1..] == path[next + 1..];
      next := next + 1;
    }
  }

  /** Collects a component in the buffer part, which has room for 256 bytes and a zero. */
  method TakePart(path: seq<byte>, idx: nat) returns (part: seq<byte>, next: nat, fits: bool)
    requires idx < |path| && path[idx] != SLASH
    ensures fits <==> Run(path[idx..]) <= LONGEST
    ensures fits ==> next == idx + Run(path[idx..]) <= |path| && part == path[idx..][..Run(path[idx..])]
  {
    part, next := [], idx;
    ghost var rest := path[idx..];
    while next < |path| && path[next] != SLASH
      invariant idx <= next <= |path| && part == rest[..next - idx]
      invariant |part| <= LONGEST && next - idx <= Run(rest)
    {
      RunReaches(rest, next - idx);
      if |part| == LONGEST {
        return part, next, false;
      }
      part := part + [path[next]];
      next := next + 1;
    }
    return part, next, true;
  }

  /** Ext2::find on a path without zero bytes, from a node or from a null reference: the walk
      over what the disk holds. */
  method FindPath(disk: seq<byte>, m: Mount, start: Outcome, path: seq<byte>) returns (current: Outcome)
    requires FsOk(disk, m) && 0 !in path
    requires start.Missing? || (start.Found? && 0 < start.inode <= m.nodes)
    ensures current == Walk(NodesOf(disk, m), start, Components(path))
  {
    hide Run, Step, FsOk, NodesOf;
    ghost var fs := NodesOf(disk, m);
    current := start;
    var idx := 0;
    while true
      invariant idx <= |path| && (current.Missing? || (current.Found? && 0 < current.inode <= m.nodes))
      invariant Walk(fs, start, Components(path)) == Walk(fs, current, Components(path[idx..]))
      decreases |path| - idx
    {
      idx := SkipSlashes(path, idx);
      if current.Missing? || idx == |path| {
        if current.Missing? { WalkStays(fs, current, Components(path[idx..])); }
        return;
      }
      var part, next, fits := TakePart(path, idx);
      WalkPart(fs, current, path, idx);
      if !fits {
        return Failed;
      }
      var found := LookUp(disk, m, current.inode, part);
      if !found.Found? {
        WalkStays(fs, found, Components(path[next..]));
        return found;
      }
      current, idx := found, next;
    }
  }

  /** The walk of a rest that starts with a component. */
  lemma WalkPart(fs: Nodes, at: Outcome, path: seq<byte>, idx: nat)
    requires idx < |path| && path[idx] != SLASH && at.Found?
    ensures var n := Run(path[idx..]);
      && 0 < n && idx + n <= |path|
      && Walk(fs, at, Components(path[idx..])) == Walk(fs, Step(fs, at, path[idx..][..n]), Components(path[idx + n..]))
      && (LONGEST < n ==> Walk(fs, at, Components(path[idx..])) == Failed)
  {
    var n := Run(path[idx..]);
    assert path[idx..][n..] == path[idx + n..];
    var parts := Components(path[idx..]);
    assert parts == [path[idx..][..n]] + Components(path[idx + n..]);
    assert parts[1..] == Components(path[idx + n..]);
    if LONGEST < n { WalkStays(fs, Failed, parts[1..]); }
  }

  /** current->find(part), then get_node. The pieces of the directory that entries reads are
      slices of its contents, which are read here at once. */
  method LookUp(disk: seq<byte>, m: Mount, inode: nat, part: seq<byte>) returns (next: Outcome)
    requires FsOk(disk, m) && 0 < inode <= m.nodes && |part| <= LONGEST
    ensures next == Step(NodesOf(disk, m), Found(inode), part)
    ensures next.Found? ==> 0 < next.inode <= m.nodes
  {
    hide NodeOffset, Parse, Lookup, IsDirectory;
    ghost var fs := NodesOf(disk, m);
    assert inode in fs;
    var dev, isDir := GetNode(disk, m, inode);
    if !isDir {
      return Failed;
    }
    SmallFile(disk, dev);
    var c := ReadWhole(disk, dev);
    var number := Find(c, part);
    match number
    case Panic => return Failed;
    case Forever => return Endless;
    case Ok(n) =>
      if n == 0 {
        return Missing;
      }
      return if n <= m.nodes then Found(n) else Failed;
  }

  method ReadWhole(disk: seq<byte>, dev: Device) returns (c: seq<byte>)
    requires Readable(disk, dev)
    ensures c == Contents(disk, dev)
  {
    hide Contents, Covered, Slice;
    var buffer := new byte[dev.size](_ => 0);
    SliceOfContents(disk, dev, 0, dev.size);
    ghost var before := buffer[..];
    var count := ReadAll(disk, dev, 0, dev.size, buffer, 0);
    assert Contents(disk, dev)[0..dev.size] == Contents(disk, dev);
    if 0 < dev.size { StoredFirst(before, buffer[..], Contents(disk, dev)); }
    return buffer[..];
  }

  lemma RunReaches(p: seq<byte>, k: nat)
    requires k <= Run(p) && k < |p| && p[k] != SLASH
    ensures k < Run(p)
  {
  }

  /** Looking up p/q is looking up q from where p leads: a missing directory, a failed
      assertion and an endless directory all carry through. */
  lemma FindIsCompositional(fs: Nodes, at: Outcome, p: seq<byte>, q: seq<byte>)
    ensures Walk(fs, at, Components(p + [SLASH] + q)) == Walk(fs, Walk(fs, at, Components(p)), Components(q))
  {
    ComponentsSplit(p, q);
    WalkSplit(fs, at, Components(p), Components(q));
  }

  /** Repeated, leading and trailing slashes change nothing. */
  lemma SlashesDoNotCount(p: seq<byte>, q: seq<byte>)
    ensures Components(p + [SLASH] + [SLASH] + q) == Components(p + [SLASH] + q)
    ensures Components([SLASH] + p) == Components(p) == Components(p + [SLASH])
  {
    assert p + [SLASH] + [SLASH] + q == p + [SLASH] + ([SLASH] + q);
    assert ([SLASH] + q)[1..] == q && ([SLASH] + p)[1..] == p;
    ComponentsSplit(p, [SLASH] + q);
    ComponentsSplit(p, q);
    ComponentsSplit(p, []);
    assert p + [SLASH] + [] == p + [SLASH];
  }
}
