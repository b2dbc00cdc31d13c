/** Directories and path lookup of the ext2 reader. A directory is the contents of its file,
    which BlockIO shows is what the reads return. */
module Ext2 {
  import opened BlockIO

  /** Panic: an assertion of the original fails. Forever: its loop never ends. */
  datatype Result<T> = Ok(value: T) | Panic | Forever

  datatype Entry = Entry(inode: nat, name: seq<byte>)

  /** No offset of a directory below this size wraps; SmallFile shows that files are. */
  const OFFSET_LIMIT: nat := 0xFFFF_0000

  // ----- one record

  function Half(b: seq<byte>): (r: nat)
    requires |b| == 2
    ensures r < 0x1_0000
  {
    b[0] as nat + 0x100 * (b[1] as nat)
  }

  /** The fixed part of a record, read as three numbers: i-node, record length, name length. */
  predicate HasHeader(c: seq<byte>, offset: nat) {
    offset + 7 <= |c|
  }

  function InodeAt(c: seq<byte>, offset: nat): nat
    requires HasHeader(c, offset)
  {
    Word(c[offset..][..4])
  }

  function TotalAt(c: seq<byte>, offset: nat): (r: nat)
    requires HasHeader(c, offset)
    ensures r < 0x1_0000
  {
    Half(c[offset + 4..][..2])
  }

  function NameLengthAt(c: seq<byte>, offset: nat): (r: nat)
    requires HasHeader(c, offset)
    ensures r < 256
  {
    c[offset + 6] as nat
  }

  /** read_all of no bytes succeeds anywhere. */
  predicate HasName(c: seq<byte>, offset: nat)
    requires HasHeader(c, offset)
  {
    var n := NameLengthAt(c, offset);
    n == 0 || offset + 8 + n <= |c|
  }

  function NameAt(c: seq<byte>, offset: nat): seq<byte>
    requires HasHeader(c, offset) && HasName(c, offset)
  {
    var n := NameLengthAt(c, offset);
    if n == 0 then [] else c[offset + 8..][..n]
  }

  /** The entries from offset on. */
  function Parse(c: seq<byte>, offset: nat): (r: Result<seq<Entry>>)
    ensures r.Ok? && offset < |c| ==> r.value != []
    decreases if offset < |c| then |c| - offset else 0
  {
    if |c| <= offset then Ok([])
    else if !HasHeader(c, offset) || !HasName(c, offset) then Panic
    else if TotalAt(c, offset) == 0 then Forever
    else After([EntryAt(c, offset)], Parse(c, offset + TotalAt(c, offset)))
  }

  function EntryAt(c: seq<byte>, offset: nat): Entry
    requires HasHeader(c, offset) && HasName(c, offset)
  {
    Entry(InodeAt(c, offset), NameAt(c, offset))
  }

  function After(seen: seq<Entry>, rest: Result<seq<Entry>>): Result<seq<Entry>> {
    match rest
    case Ok(es) => Ok(seen + es)
    case Panic => Panic
    case Forever => Forever
  }

  /** One record at a time. */
  lemma ParseStep(c: seq<byte>, offset: nat, seen: seq<Entry>)
    requires offset < |c|
    ensures !HasHeader(c, offset) || !HasName(c, offset) ==> Parse(c, offset) == Panic
    ensures HasHeader(c, offset) && HasName(c, offset) && TotalAt(c, offset) == 0 ==> Parse(c, offset) == Forever
    ensures HasHeader(c, offset) && HasName(c, offset) && TotalAt(c, offset) != 0 ==>
      After(seen, Parse(c, offset)) == After(seen + [EntryAt(c, offset)], Parse(c, offset + TotalAt(c, offset)))
  {
    if HasHeader(c, offset) && HasName(c, offset) && TotalAt(c, offset) != 0 {
      var next := Parse(c, offset + TotalAt(c, offset));
      if next.Ok? { assert seen + ([EntryAt(c, offset)] + next.value) == seen + [EntryAt(c, offset)] + next.value; }
    }
  }

  lemma AfterNothing(r: Result<seq<Entry>>)
    ensures After([], r) == r
  {
    if r.Ok? { assert [] + r.value == r.value; }
  }

  // ----- what a well-formed directory holds

  /** An entry as it is laid out: pad fills the record up to its length. */
  datatype Record = Record(inode: nat, kind: byte, name: seq<byte>, pad: seq<byte>)

  predicate RecordOk(r: Record) {
    r.inode < WORD && |r.name| < 256 && Total(r) < 0x1_0000
  }

  function Total(r: Record): nat {
    8 + |r.name| + |r.pad|
  }

  function WordBytes(w: nat): (b: seq<byte>)
    requires w < WORD
    ensures |b| == 4 && Word(b) == w
  {
    var x := w / 0x100;
    var y := x / 0x100;
    [(w % 0x100) as byte, (x % 0x100) as byte, (y % 0x100) as byte, (y / 0x100) as byte]
  }

  function HalfBytes(w: nat): (b: seq<byte>)
    requires w < 0x1_0000
    ensures |b| == 2 && Half(b) == w
  {
    [(w % 0x100) as byte, (w / 0x100) as byte]
  }

  function Bytes(r: Record): (b: seq<byte>)
    requires RecordOk(r)
    ensures |b| == Total(r)
  {
    WordBytes(r.inode) + HalfBytes(Total(r)) + [|r.name| as byte, r.kind] + r.name + r.pad
  }

  function Encode(rs: seq<Record>): seq<byte>
    requires forall r :: r in rs ==> RecordOk(r)
  {
    if rs == [] then [] else Bytes(rs[0]) + Encode(rs[1..])
  }

  function EntriesOf(rs: seq<Record>): seq<Entry> {
    if rs == [] then [] else [Entry(rs[0].inode, rs[0].name)] + EntriesOf(rs[1..])
  }

  /** The fields of a record are found where it was laid out, whatever surrounds it. */
  lemma RecordReadsBack(before: seq<byte>, r: Record, after: seq<byte>)
    requires RecordOk(r)
    ensures var c, at := before + Bytes(r) + after, |before|;
      && HasHeader(c, at) && HasName(c, at)
      && InodeAt(c, at) == r.inode && TotalAt(c, at) == Total(r) && NameAt(c, at) == r.name
  {
    hide Word, Half;
    var c, at, b := before + Bytes(r) + after, |before|, Bytes(r);
    assert c[at..][..|b|] == b;
    assert c[at..][..4] == b[..4] == WordBytes(r.inode);
    assert c[at + 4..][..2] == b[4..6] == HalfBytes(Total(r));
    assert c[at + 6] == b[6] == |r.name| as byte;
    if r.name != [] {
      assert c[at + 8..][..|r.name|] == b[8..8 + |r.name|] == r.name;
    }
  }

  /** Reading a well-formed directory gives back exactly its entries, in order. */
  lemma {:induction false} ParseReadsBack(before: seq<byte>, rs: seq<Record>)
    requires forall r :: r in rs ==> RecordOk(r)
    ensures Parse(before + Encode(rs), |before|) == Ok(EntriesOf(rs))
    decreases |rs|
  {
    hide Parse, InodeAt, TotalAt, NameAt, Bytes, HasHeader, HasName;
    var c := before + Encode(rs);
    if rs == [] {
      ParseEnd(c, |before|, []);
      AfterNothing(Parse(c, |before|));
    } else {
      var next := before + Bytes(rs[0]);
      assert c == next + Encode(rs[1..]);
      RecordReadsBack(before, rs[0], Encode(rs[1..]));
      ParseReadsBack(next, rs[1..]);
      ParseStep(c, |before|, []);
      AfterNothing(Parse(c, |before|));
      assert [] + [EntryAt(c, |before|)] == [Entry(rs[0].inode, rs[0].name)];
    }
  }

  // ----- the loops over a directory

  /** Node::entries: calls its argument with each entry; here, lists them. */
  method Entries(c: seq<byte>) returns (r: Result<seq<Entry>>)
    requires |c| <= OFFSET_LIMIT
    ensures r == Parse(c, 0)
  {
    hide Parse, InodeAt, TotalAt, NameLengthAt, NameAt;
    var offset, seen := 0, [];
    AfterNothing(Parse(c, 0));
    while offset < |c|
      invariant Parse(c, 0) == After(seen, Parse(c, offset))
      decreases |c| - offset
    {
      ParseStep(c, offset, seen);
      if !HasHeader(c, offset) || !HasName(c, offset) {
        return Panic;
      }
      seen := seen + [Entry(InodeAt(c, offset), NameAt(c, offset))];
      var total := TotalAt(c, offset);
      if total == 0 {
        return Forever;
      }
      offset := (offset + total) % WORD;
    }
    ParseEnd(c, offset, seen);
    return Ok(seen);
  }

  lemma ParseEnd(c: seq<byte>, offset: nat, seen: seq<Entry>)
    requires |c| <= offset
    ensures After(seen, Parse(c, offset)) == Ok(seen)
  {
    assert seen + [] == seen;
  }

  /** The part of a name that a C string comparison sees. */
  function CString(b: seq<byte>): (r: seq<byte>)
    ensures 0 !in r
  {
    if b == [] || b[0] == 0 then [] else [b[0]] + CString(b[1..])
  }

  predicate Matches(e: Entry, name: seq<byte>) {
    CString(e.name) == name
  }

  /** Node::find: the i-node number of the last entry of that name, or zero. */
  method Find(c: seq<byte>, name: seq<byte>) returns (r: Result<nat>)
    requires |c| <= OFFSET_LIMIT
    ensures r.Panic? <==> Parse(c, 0).Panic?
    ensures r.Forever? <==> Parse(c, 0).Forever?
    ensures r.Ok? ==> r.value == Lookup(Parse(c, 0).value, name)
  {
    var es := Entries(c);
    if !es.Ok? {
      return if es.Panic? then Panic else Forever;
    }
    var out, i := 0, 0;
    while i < |es.value|
      invariant i <= |es.value| && out == Lookup(es.value[..i], name)
    {
      if CString(es.value[i].name) == name {
        out := es.value[i].inode;
      }
      i := i + 1;
      assert es.value[..i][..i - 1] == es.value[..i - 1];
    }
    assert es.value[..i] == es.value;
    return Ok(out);
  }

  function Lookup(es: seq<Entry>, name: seq<byte>): nat {
    if es == [] then 0
    else if Matches(es[|es| - 1], name) then es[|es| - 1].inode
    else Lookup(es[..|es| - 1], name)
  }

  /** The entry found is the last of its name; zero means that there is none, or that the
      last one is unused. */
  lemma {:induction false} LookupIsLastMatch(es: seq<Entry>, name: seq<byte>)
    ensures (exists k :: 0 <= k < |es| && Matches(es[k], name)) ==>
      exists k :: 0 <= k < |es| && Matches(es[k], name) && es[k].inode == Lookup(es, name)
                  && forall j :: k < j < |es| ==> !Matches(es[j], name)
    ensures !(exists k :: 0 <= k < |es| && Matches(es[k], name)) ==> Lookup(es, name) == 0
    decreases |es|
  {
    if es != [] && !Matches(es[|es| - 1], name) {
      var front := es[..|es| - 1];
      LookupIsLastMatch(front, name);
      if k :| 0 <= k < |es| && Matches(es[k], name) {
        assert Matches(front[k], name);
        var i :| 0 <= i < |front| && Matches(front[i], name) && front[i].inode == Lookup(front, name)
                 && forall j :: i < j < |front| ==> !Matches(front[j], name);
        assert es[i] == front[i];
        forall j | i < j < |es| ensures !Matches(es[j], name) { assert j < |front| ==> es[j] == front[j]; }
      }
    }
  }

  // ----- listing a directory

  function NamesLength(es: seq<Entry>): nat {
    if es == [] then 0 else NamesLength(es[..|es| - 1]) + |es[|es| - 1].name| + 1
  }

  /** Every name, each followed by a space. */
  function Spaced(es: seq<Entry>): (b: seq<byte>)
    ensures |b| == NamesLength(es)
  {
    if es == [] then [] else Spaced(es[..|es| - 1]) + es[|es| - 1].name + [32]
  }

  /** The length of the listing, from the headers alone: the names may be missing. */
  function Announced(c: seq<byte>, offset: nat): Result<nat>
    decreases if offset < |c| then |c| - offset else 0
  {
    if |c| <= offset then Ok(0)
    else if !HasHeader(c, offset) then Panic
    else if TotalAt(c, offset) == 0 then Forever
    else More(NameLengthAt(c, offset) + 1, Announced(c, offset + TotalAt(c, offset)))
  }

  function More(n: nat, rest: Result<nat>): Result<nat> {
    match rest
    case Ok(m) => Ok(n + m)
    case Panic => Panic
    case Forever => Forever
  }

  lemma {:induction false} LengthAdds(a: seq<Entry>, b: seq<Entry>)
    ensures NamesLength(a + b) == NamesLength(a) + NamesLength(b)
    decreases |b|
  {
    if b == [] {
      assert a + b == a;
    } else {
      assert (a + b)[..|a + b| - 1] == a + b[..|b| - 1];
      LengthAdds(a, b[..|b| - 1]);
    }
  }

  /** For a directory that can be listed it is the length of the listing. */
  lemma {:induction false} AnnouncedIsLength(c: seq<byte>, offset: nat)
    requires Parse(c, offset).Ok?
    ensures Announced(c, offset) == Ok(NamesLength(Parse(c, offset).value))
    decreases if offset < |c| then |c| - offset else 0
  {
    hide TotalAt, NameLengthAt, InodeAt, NameAt;
    if offset < |c| {
      var next := offset + TotalAt(c, offset);
      AnnouncedIsLength(c, next);
      NamesLengthAdds(c, offset, []);
      assert [] + [EntryAt(c, offset)] == [EntryAt(c, offset)];
      LengthAdds([EntryAt(c, offset)], Parse(c, next).value);
    }
  }

  /** Node::get_length_of_dir_entries, in 32-bit arithmetic. */
  method GetLength(c: seq<byte>) returns (r: Result<nat>)
    requires |c| <= OFFSET_LIMIT
    ensures r == match Announced(c, 0)
                 case Ok(n) => Ok(n % WORD)
                 case Panic => Panic
                 case Forever => Forever
    ensures Parse(c, 0).Ok? ==> r == Ok(NamesLength(Parse(c, 0).value) % WORD)
  {
    hide Parse, TotalAt, NameLengthAt, NamesLength, HasHeader, Announced;
    if Parse(c, 0).Ok? { AnnouncedIsLength(c, 0); }
    var offset: nat, size: nat := 0, 0;
    ghost var sum: nat := 0;
    MoreNothing(Announced(c, 0));
    while offset < |c|
      invariant Announced(c, 0) == More(sum, Announced(c, offset)) && size == sum % WORD
      decreases |c| - offset
    {
      AnnouncedStep(c, offset, sum);
      if !HasHeader(c, offset) {
        return Panic;
      }
      var total, length := TotalAt(c, offset), NameLengthAt(c, offset);
      if total == 0 {
        return Forever;
      }
      AddInWord(sum, length + 1);
      sum := sum + (length + 1);
      offset := (offset + total) % WORD;
      size := (size + (length + 1)) % WORD;
    }
    AnnouncedEnd(c, offset);
    return Ok(size);
  }

  lemma MoreNothing(r: Result<nat>)
    ensures More(0, r) == r
  {
  }

  lemma AnnouncedEnd(c: seq<byte>, offset: nat)
    requires |c| <= offset
    ensures Announced(c, offset) == Ok(0)
  {
  }

  lemma AnnouncedStep(c: seq<byte>, offset: nat, sum: nat)
    requires offset < |c|
    ensures !HasHeader(c, offset) ==> Announced(c, offset) == Panic
    ensures HasHeader(c, offset) && TotalAt(c, offset) == 0 ==> Announced(c, offset) == Forever
    ensures HasHeader(c, offset) && TotalAt(c, offset) != 0 ==>
      More(sum, Announced(c, offset)) == More(sum + (NameLengthAt(c, offset) + 1), Announced(c, offset + TotalAt(c, offset)))
  {
  }

  lemma AddInWord(a: nat, b: nat)
    ensures (a % WORD + b) % WORD == (a + b) % WORD
  {
  }

  lemma NamesLengthAdds(c: seq<byte>, offset: nat, seen: seq<Entry>)
    requires HasHeader(c, offset) && HasName(c, offset)
    ensures NamesLength(seen + [EntryAt(c, offset)]) == NamesLength(seen) + NameLengthAt(c, offset) + 1
    ensures Spaced(seen + [EntryAt(c, offset)]) == Spaced(seen) + (NameAt(c, offset) + [32])
    ensures |NameAt(c, offset)| == NameLengthAt(c, offset)
  {
    assert (seen + [EntryAt(c, offset)])[..|seen|] == seen;
  }

  /** A name and the space behind it. */
  method WriteName(name: seq<byte>, buffer: array<byte>, at: nat)
    requires at + |name| < buffer.Length
    modifies buffer
    ensures Stored(old(buffer[..]), buffer[..], at, name + [32])
  {
    hide Stored;
    Copy(name, 0, buffer, at, |name|);
    assert name[0..|name|] == name;
    StoredSize(old(buffer[..]), buffer[..], at, name);
    ghost var mid := buffer[..];
    buffer[at + |name|] := 32;
    assert buffer[..] == mid[at + |name| := 32];
    StoredOne(mid, at + |name|, 32);
    StoredTwice(old(buffer[..]), mid, buffer[..], at, name, [32]);
  }

  /** Node::get_dir_entries on a buffer of the length announced: writes exactly that many
      bytes, the names with a space between two and a zero after the last. In an empty
      directory there is no last, and the zero goes before the buffer: inside is false, and
      the buffer itself is as it was. */
  method GetDirEntries(c: seq<byte>, buffer: array<byte>) returns (inside: bool)
    requires |c| <= OFFSET_LIMIT && Parse(c, 0).Ok?
    requires NamesLength(Parse(c, 0).value) < WORD && NamesLength(Parse(c, 0).value) <= buffer.Length
    modifies buffer
    ensures inside <==> c != []
    ensures !inside ==> buffer[..] == old(buffer[..])
    ensures inside ==>
      var es := Parse(c, 0).value; var n := NamesLength(es);
      && 0 < n && buffer[..n] == Spaced(es)[..n - 1] + [0]
      && buffer[n..] == old(buffer[..])[n..]
  {
    hide Parse;
    var at := WriteNames(c, buffer);
    ghost var last := buffer[..];
    inside := at != 0;
    if !inside {
      ParseEnd(c, 0, []);
      AfterNothing(Parse(c, 0));
      return;
    }
    buffer[at - 1] := 0;
    hide Stored;
    Ended(old(buffer[..]), last, Spaced(Parse(c, 0).value));
    assert buffer[..] == last[at - 1 := 0];
  }

  /** The loop: every name, each followed by a space. */
  method WriteNames(c: seq<byte>, buffer: array<byte>) returns (at: nat)
    requires |c| <= OFFSET_LIMIT && Parse(c, 0).Ok? && NamesLength(Parse(c, 0).value) <= buffer.Length
    modifies buffer
    ensures at == NamesLength(Parse(c, 0).value) && (0 < |c| <==> 0 < at)
    ensures Stored(old(buffer[..]), buffer[..], 0, Spaced(Parse(c, 0).value))
  {
    hide Parse, TotalAt, NameLengthAt, InodeAt, NameAt, NamesLength, Spaced, Stored, After, HasHeader, HasName, EntryAt;
    var offset: nat := 0;
    at := 0;
    ghost var seen: seq<Entry> := [];
    ghost var es := Parse(c, 0).value;
    AfterNothing(Parse(c, 0));
    NothingYet();
    StoredNothing(buffer[..], 0);
    while offset < |c|
      invariant After(seen, Parse(c, offset)) == Ok(es)
      invariant at == NamesLength(seen) <= NamesLength(es) && (at == 0 <==> offset == 0)
      invariant c == [] ==> offset == 0
      invariant Stored(old(buffer[..]), buffer[..], 0, Spaced(seen))
      decreases |c| - offset
    {
      ListStep(c, offset, seen, es);
      ghost var before := buffer[..];
      var name := NameAt(c, offset);
      WriteName(name, buffer, at);
      StoredTwice(old(buffer[..]), before, buffer[..], 0, Spaced(seen), name + [32]);
      seen := seen + [EntryAt(c, offset)];
      at := at + |name| + 1;
      offset := (offset + TotalAt(c, offset)) % WORD;
    }
    ParseEnd(c, offset, seen);
  }

  /** The last space becomes the terminating zero. */
  lemma Ended(first: seq<byte>, last: seq<byte>, text: seq<byte>)
    requires Stored(first, last, 0, text) && text != []
    ensures var n := |text|; var after := last[n - 1 := 0];
      after[..n] == text[..n - 1] + [0] && after[n..] == first[n..]
  {
  }

  lemma ListStep(c: seq<byte>, offset: nat, seen: seq<Entry>, es: seq<Entry>)
    requires offset < |c| && After(seen, Parse(c, offset)) == Ok(es)
    ensures HasHeader(c, offset) && HasName(c, offset) && 0 < TotalAt(c, offset)
    ensures var next := seen + [EntryAt(c, offset)];
      && After(next, Parse(c, offset + TotalAt(c, offset))) == Ok(es)
      && NamesLength(next) == NamesLength(seen) + NameLengthAt(c, offset) + 1 <= NamesLength(es)
      && Spaced(next) == Spaced(seen) + (NameAt(c, offset) + [32])
      && |NameAt(c, offset)| == NameLengthAt(c, offset)
  {
    hide Parse, NameAt, InodeAt, NameLengthAt, TotalAt;
    ParseStep(c, offset, seen);
    NamesLengthAdds(c, offset, seen);
    NamesLengthGrows(seen + [EntryAt(c, offset)], Parse(c, offset + TotalAt(c, offset)).value);
  }

  lemma NothingYet()
    ensures NamesLength([]) == 0 && Spaced([]) == []
  {
  }

  lemma {:induction false} NamesLengthGrows(a: seq<Entry>, b: seq<Entry>)
    ensures NamesLength(a) <= NamesLength(a + b)
    decreases |b|
  {
    if b == [] {
      assert a + b == a;
    } else {
      assert (a + b)[..|a + b| - 1] == a + b[..|b| - 1];
      NamesLengthGrows(a, b[..|b| - 1]);
    }
  }
}
