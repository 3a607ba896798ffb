/**
 The first file system (mkfs.c): mkfs lays out a disk, appends to files taking blocks in order,
 and writes the bitmap at the end.  What it makes is what module BlockMap asks for.
 */
module Mkfs {
  import opened Common
  import opened Blocks
  import opened BlockMap
  import opened FileData

  const ROOT := 1
  const T_DIR := 1
  const T_FILE := 2

  predicate Layout(sb: Super) {
    2 <= sb.inodestart < sb.bmapstart && Nmeta(sb) <= sb.size < WORD
  }

  function Ninodes(sb: Super): nat
    requires Layout(sb)
  {
    (sb.bmapstart - sb.inodestart) * IPB
  }

  function Empty(): Inode {
    Inode(0, seq<nat>(NDIRECT + 1, _ => 0))
  }

  /** The blocks below n are in use, those before the data as laid out; the bitmap and the rest
      of the disk are still zero. */
  ghost predicate Laying(sb: Super, disk: Disk, owner: Owners, n: nat) {
    && Nmeta(sb) <= n <= sb.size < WORD
    && (forall b :: b in owner <==> 0 <= b < n)
    && (forall b :: 0 <= b < Nmeta(sb) ==> b in owner && owner[b] == MetaOwner(sb, b))
    && (forall b :: sb.bmapstart <= b < Nmeta(sb) || n <= b < sb.size ==> b in disk && disk[b] == Zeros())
  }

  /** A file has just the blocks that its bytes need. */
  ghost predicate Tight(disk: Disk, ino: Inode) {
    && |ino.addrs| == NDIRECT + 1
    && (forall k :: 0 <= k < MAXFILE ==> (Addr(disk, ino, k) != 0 <==> k * BSIZE < ino.size))
    && (ino.addrs[NDIRECT] != 0 <==> NDIRECT * BSIZE < ino.size)
  }

  /** How many those are, with the block of addresses. */
  function BlocksOf(size: nat): nat {
    (size + BSIZE - 1) / BSIZE + if NDIRECT * BSIZE < size then 1 else 0
  }

  /** A file can grow from size s to size t when n blocks are in use. */
  predicate Room(sb: Super, n: nat, s: nat, t: nat) {
    t <= MAXFILE * BSIZE && n + BlocksOf(t) <= sb.size + BlocksOf(s)
  }

  /** It has, and m are in use. */
  predicate Grown(n: nat, s: nat, m: nat, t: nat) {
    m + BlocksOf(s) == n + BlocksOf(t)
  }

  /** What a round that adds d bytes takes, of the u that are left. */
  lemma RoundRoom(sb: Super, disk: Disk, ino: Inode, o: nat, bn: nat, x: nat, d: nat, n: nat, s: nat, m: nat, u: nat)
    requires Tight(disk, ino) && o == ino.size && At(o, bn, x) && 0 < d <= BSIZE - x && d <= u && Grown(n, s, m, o)
    ensures bn >= MAXFILE || m + New(disk, ino, bn) > sb.size ==> !Room(sb, n, s, o + u)
    ensures bn < MAXFILE ==> Grown(n, s, m + New(disk, ino, bn), o + d)
  {
    if bn < MAXFILE {
      assert Addr(disk, ino, bn) != 0 <==> bn * BSIZE < ino.size;
    }
    if !Room(sb, m, o, o + d) {
      NoRoom(sb, n, s, m, o, o + d, o + u);
    }
  }

  /** What cannot grow to size u cannot grow past it. */
  lemma NoRoom(sb: Super, n: nat, s: nat, m: nat, t: nat, u: nat, v: nat)
    requires Grown(n, s, m, t) && !Room(sb, m, t, u) && u <= v
    ensures !Room(sb, n, s, v)
  {
    assert (u + BSIZE - 1) / BSIZE <= (v + BSIZE - 1) / BSIZE;
  }

  /** Every inode on disk is the one in memory. */
  ghost predicate TableIs(sb: Super, disk: Disk, inodes: Inodes) {
    forall i :: i in inodes ==> OnDisk(sb, disk, i).ino == inodes[i] && Fits(OnDisk(sb, disk, i))
  }

  ghost predicate AllTight(disk: Disk, inodes: Inodes) {
    forall i :: i in inodes ==> Tight(disk, inodes[i])
  }

  ghost predicate Made(sb: Super, disk: Disk, inodes: Inodes, owner: Owners, n: nat) {
    && Layout(sb) && (forall i :: i in inodes <==> 0 <= i < Ninodes(sb))
    && Owned(sb, disk, inodes, owner) && Laying(sb, disk, owner, n) && TableIs(sb, disk, inodes)
  }

  // ----- taking the next block ---------------------------------------------

  /** Only block d has changed; if it is 0, none has. */
  ghost predicate OnlyBlock(disk: Disk, disk': Disk, d: nat) {
    forall b :: b in disk && (b != d || d == 0) ==> b in disk' && disk'[b] == disk[b]
  }

  lemma TakeNext(sb: Super, disk: Disk, owner: Owners, n: nat, o: Owner, disk': Disk, d: nat, i: nat)
    requires Laying(sb, disk, owner, n) && n < sb.size && (d != 0 ==> d in owner && owner[d] == Indirect(i))
    requires OnlyBlock(disk, disk', d)
    ensures n !in owner && n > 0 && Laying(sb, disk', owner[n := o], n + 1) && Kept(disk, disk', owner, owner[n := o], i)
  {
    forall b | sb.bmapstart <= b < Nmeta(sb) || n + 1 <= b < sb.size ensures b in disk' && disk'[b] == Zeros() {
      assert b != d || d == 0;
    }
  }

  /** Block n becomes a direct block. */
  lemma TakeDirect(sb: Super, disk: Disk, inodes: Inodes, owner: Owners, i: nat, bn: nat, n: nat)
    requires Owned(sb, disk, inodes, owner) && Laying(sb, disk, owner, n) && n < sb.size && i in inodes && bn < NDIRECT
    requires |inodes[i].addrs| == NDIRECT + 1 && inodes[i].addrs[bn] == 0
    ensures Mapped(sb, disk, inodes, owner, i, bn, disk, PutAddr(inodes[i], bn, n), owner[n := Data(i, bn)])
    ensures Laying(sb, disk, owner[n := Data(i, bn)], n + 1)
  {
    var ino, ino' := inodes[i], PutAddr(inodes[i], bn, n);
    TakeNext(sb, disk, owner, n, Data(i, bn), disk, 0, i);
    forall c | c in owner ensures c in disk {
      assert OwnerOk(sb, disk, inodes, owner, c);
    }
    assert forall k :: 0 <= k < MAXFILE ==> Addr(disk, ino', k) == if k == bn then n else Addr(disk, ino, k);
    Attach(sb, disk, inodes, owner, i, bn, n, disk, ino');
  }

  /** Block n becomes the block of addresses. */
  lemma TakeIndirect(sb: Super, disk: Disk, inodes: Inodes, owner: Owners, i: nat, n: nat)
    requires Owned(sb, disk, inodes, owner) && Laying(sb, disk, owner, n) && n < sb.size && i in inodes
    requires |inodes[i].addrs| == NDIRECT + 1 && inodes[i].addrs[NDIRECT] == 0
    ensures Owned(sb, disk, inodes[i := PutAddr(inodes[i], NDIRECT, n)], owner[n := Indirect(i)])
    ensures SameAddrs(disk, inodes[i], disk, PutAddr(inodes[i], NDIRECT, n))
    ensures Laying(sb, disk, owner[n := Indirect(i)], n + 1) && Kept(disk, disk, owner, owner[n := Indirect(i)], i)
  {
    TakeNext(sb, disk, owner, n, Indirect(i), disk, 0, i);
    forall c | c in owner ensures c in disk {
      assert OwnerOk(sb, disk, inodes, owner, c);
    }
    AttachIndirect(sb, disk, inodes, owner, i, n, disk);
  }

  /** Block n becomes a block behind the block of addresses d. */
  lemma TakeThrough(sb: Super, disk: Disk, inodes: Inodes, owner: Owners, i: nat, bn: nat, n: nat, d: nat)
    requires Owned(sb, disk, inodes, owner) && Laying(sb, disk, owner, n) && n < sb.size && i in inodes
    requires |inodes[i].addrs| == NDIRECT + 1 && NDIRECT <= bn < MAXFILE && d == inodes[i].addrs[NDIRECT] != 0
    requires Addr(disk, inodes[i], bn) == 0
    ensures d in disk && |disk[d]| == BSIZE
    ensures Mapped(sb, disk, inodes, owner, i, bn, StoreWord(disk, d, bn - NDIRECT, n), inodes[i], owner[n := Data(i, bn)])
    ensures Laying(sb, StoreWord(disk, d, bn - NDIRECT, n), owner[n := Data(i, bn)], n + 1)
  {
    assert FileOk(disk, owner, i, inodes[i]);
    assert OwnerOk(sb, disk, inodes, owner, d);
    forall c | c in owner ensures c in disk {
      assert OwnerOk(sb, disk, inodes, owner, c);
    }
    var disk' := StoreWord(disk, d, bn - NDIRECT, n);
    TakeNext(sb, disk, owner, n, Data(i, bn), disk', d, i);
    AttachThrough(sb, disk, inodes, owner, i, bn, n, d, disk);
    assert inodes[i := inodes[i]] == inodes;
  }

  // ----- appending ---------------------------------------------------------

  /** The bytes c are appended to file j.i so far. */
  ghost predicate Appending(sb: Super, j: Write, disk: Disk, inodes: Inodes, owner: Owners, c: Bytes, n: nat) {
    && j.Valid(sb) && j.off == j.inodes[j.i].size && Written(sb, j, disk, inodes, owner, c)
    && Laying(sb, disk, owner, n) && TableSame(j.disk, disk, j.owner) && Tight(disk, inodes[j.i])
  }

  lemma TightNext(sb: Super, disk: Disk, inodes: Inodes, owner: Owners, i: nat, bn: nat, x: nat, disk1: Disk, ino1: Inode,
                  owner1: Owners, disk2: Disk, ino2: Inode)
    requires i in inodes && Tight(disk, inodes[i]) && At(inodes[i].size, bn, x)
    requires Mapped(sb, disk, inodes, owner, i, bn, disk1, ino1, owner1) && SameAddrs(disk1, ino1, disk2, ino2)
    requires inodes[i].size < ino2.size <= (bn + 1) * BSIZE && ino2.addrs == ino1.addrs
    ensures Tight(disk2, ino2)
  {
  }

  lemma AppendRound(sb: Super, j: Write, disk: Disk, inodes: Inodes, owner: Owners, c: Bytes, d: Bytes, bn: nat,
                    x: nat, disk1: Disk, ino1: Inode, owner1: Owners, m: nat, n: nat, a: nat)
    requires |d| > 0 && At(j.off + |c|, bn, x) && x + |d| <= BSIZE && bn < MAXFILE
    requires Appending(sb, j, disk, inodes, owner, c, m)
    requires Mapped(sb, disk, inodes, owner, j.i, bn, disk1, ino1, owner1) && a == Addr(disk1, ino1, bn)
    requires Laying(sb, disk1, owner1, n)
    ensures a in disk1 && |disk1[a]| == BSIZE
    ensures
      var disk2, ino2 := Stored(disk1, a, x, d), Longer(ino1, j.off + |c| + |d|);
      Appending(sb, j, disk2, inodes[j.i := ino2], owner1, c + d, n) && ino2.addrs == ino1.addrs
  {
    WrittenNext(sb, j, disk, inodes, owner, c, d, bn, x, disk1, ino1, owner1, a);
    var disk2, ino2 := Stored(disk1, a, x, d), Longer(ino1, j.off + |c| + |d|);
    assert FileOk(disk1, owner1, j.i, inodes[j.i := ino1][j.i]) && BlockOk(disk1, owner1, j.i, ino1, bn);
    TableNext(j, disk, owner, disk1, owner1, a, disk2);
    TightNext(sb, disk, inodes, owner, j.i, bn, x, disk1, ino1, owner1, disk2, ino2);
  }

  /** And with n0 blocks in use before. */
  ghost predicate Extending(sb: Super, j: Write, n0: nat, disk: Disk, inodes: Inodes, owner: Owners, c: Bytes, n: nat) {
    Appending(sb, j, disk, inodes, owner, c, n) && Grown(n0, j.off, n, j.off + |c|)
  }

  lemma AppendStart(sb: Super, j: Write, n: nat)
    requires Made(sb, j.disk, j.inodes, j.owner, n) && j.i in j.inodes && j.off == j.inodes[j.i].size
    requires Tight(j.disk, j.inodes[j.i])
    ensures Extending(sb, j, n, j.disk, j.inodes, j.owner, [], n)
  {
    WrittenStart(sb, j);
  }

  /** Another file is as it was. */
  lemma AppendOther(sb: Super, j: Write, disk1: Disk, inodes: Inodes, owner: Owners, p: Bytes, disk: Disk, m: nat, k: nat)
    requires j.Valid(sb) && Written(sb, j, disk1, inodes, owner, p) && k in j.inodes && k != j.i && Owned(sb, disk, inodes, owner)
    requires m in owner && owner[m] == Table && m in disk && disk == disk1[m := disk[m]]
    ensures k in inodes && inodes[k] == j.inodes[k] && Content(disk, inodes[k]) == Content(j.disk, j.inodes[k])
    ensures Tight(j.disk, j.inodes[k]) ==> Tight(disk, inodes[k])
  {
    OtherContentKept(sb, j.disk, j.inodes, j.owner, disk, owner, j.i, k);
  }

  /** The file itself, when its inode is stored in block m. */
  lemma AppendThis(sb: Super, j: Write, disk1: Disk, inodes: Inodes, owner: Owners, p: Bytes, n: nat, disk: Disk, m: nat)
    requires Appending(sb, j, disk1, inodes, owner, p, n) && m in owner && owner[m] == Table
    requires m in disk && |disk[m]| == BSIZE && disk == disk1[m := disk[m]] && Layout(sb)
    ensures Owned(sb, disk, inodes, owner) && Laying(sb, disk, owner, n) && Tight(disk, inodes[j.i])
    ensures Content(disk, inodes[j.i]) == Content(j.disk, j.inodes[j.i]) + p
  {
    OtherBlockOwned(sb, disk1, inodes, owner, m, disk[m]);
    assert FileOk(disk1, owner, j.i, inodes[j.i]);
    forall b | b in owner ensures b in disk1 {
      assert OwnerOk(sb, disk1, inodes, owner, b);
    }
    ContentKept(disk1, owner, j.i, inodes[j.i], disk, inodes[j.i]);
    var s := Content(j.disk, j.inodes[j.i]);
    assert Spliced(s, |s|, p) == s + p;
    forall b | sb.bmapstart <= b < Nmeta(sb) || n <= b < sb.size ensures b in disk && disk[b] == Zeros() {
      assert b != m;
    }
  }

  /** What iappend has done: p is at the end of the file, whose inode is on disk; the others are
      as they were. */
  ghost predicate Appended(sb: Super, j: Write, disk: Disk, inodes: Inodes, owner: Owners, p: Bytes, n: nat) {
    && Made(sb, disk, inodes, owner, n) && AllTight(disk, inodes)
    && j.i in j.inodes && j.i in inodes && inodes == j.inodes[j.i := inodes[j.i]]
    && Content(disk, inodes[j.i]) == Content(j.disk, j.inodes[j.i]) + p
    && (forall k :: k in inodes && k != j.i ==> Content(disk, inodes[k]) == Content(j.disk, inodes[k]))
    && (forall k :: k in inodes ==> OnDisk(sb, disk, k).kind == OnDisk(sb, j.disk, k).kind)
  }

  /** The inodes on disk, when this one is stored. */
  lemma AppendTable(sb: Super, j: Write, n0: nat, disk1: Disk, inodes: Inodes, owner: Owners, p: Bytes, n: nat, disk: Disk,
                    d: Dinode)
    requires Made(sb, j.disk, j.inodes, j.owner, n0)
    requires Appending(sb, j, disk1, inodes, owner, p, n) && Updated(sb, disk1, disk, j.i, d) && Fits(d)
    requires d.ino == inodes[j.i] && d.kind == OnDisk(sb, j.disk, j.i).kind
    ensures TableIs(sb, disk, inodes) && forall k :: k in inodes ==> OnDisk(sb, disk, k).kind == OnDisk(sb, j.disk, k).kind
  {
    TableKept(sb, j.disk, j.inodes, j.owner, disk1);
  }

  lemma AppendEnd(sb: Super, j: Write, n0: nat, disk1: Disk, inodes: Inodes, owner: Owners, p: Bytes, n: nat, disk: Disk,
                  d: Dinode)
    requires Made(sb, j.disk, j.inodes, j.owner, n0) && AllTight(j.disk, j.inodes)
    requires Appending(sb, j, disk1, inodes, owner, p, n) && Updated(sb, disk1, disk, j.i, d) && Fits(d)
    requires d.ino == inodes[j.i] && d.kind == OnDisk(sb, j.disk, j.i).kind
    ensures Appended(sb, j, disk, inodes, owner, p, n)
  {
    var m := IBlock(sb, j.i);
    AppendTable(sb, j, n0, disk1, inodes, owner, p, n, disk, d);
    assert m in j.owner && m in owner;
    AppendThis(sb, j, disk1, inodes, owner, p, n, disk, m);
    forall k | k in inodes && k != j.i
      ensures inodes[k] == j.inodes[k] && Content(disk, inodes[k]) == Content(j.disk, inodes[k]) && Tight(disk, inodes[k])
    {
      AppendOther(sb, j, disk1, inodes, owner, p, disk, m, k);
    }
  }

  /** And it takes the blocks it needs. */
  ghost predicate Extended(sb: Super, j: Write, n0: nat, disk: Disk, inodes: Inodes, owner: Owners, p: Bytes, n: nat) {
    Appended(sb, j, disk, inodes, owner, p, n) && Grown(n0, j.off, n, j.off + |p|)
  }

  /** There was room for what has been appended. */
  lemma ExtendedRoom(sb: Super, j: Write, n0: nat, disk: Disk, inodes: Inodes, owner: Owners, p: Bytes, n: nat)
    requires Extended(sb, j, n0, disk, inodes, owner, p, n) && j.off == j.inodes[j.i].size
    ensures Room(sb, n0, j.off, j.off + |p|)
  {
    assert FileOk(disk, owner, j.i, inodes[j.i]);
    AppendedSize(sb, j, disk, inodes, owner, p, n);
  }

  lemma AppendedSize(sb: Super, j: Write, disk: Disk, inodes: Inodes, owner: Owners, p: Bytes, n: nat)
    requires Appended(sb, j, disk, inodes, owner, p, n) && j.off == j.inodes[j.i].size
    ensures inodes[j.i].size == j.off + |p|
  {
    assert |Content(disk, inodes[j.i])| == inodes[j.i].size;
  }

  /** The inode can be stored. */
  lemma InodeThere(sb: Super, j: Write, n0: nat, disk: Disk, inodes: Inodes, owner: Owners, p: Bytes, n: nat)
    requires Made(sb, j.disk, j.inodes, j.owner, n0) && Appending(sb, j, disk, inodes, owner, p, n)
    ensures IBlock(sb, j.i) in disk && |disk[IBlock(sb, j.i)]| == BSIZE
    ensures Inode(j.off + |p|, inodes[j.i].addrs) == inodes[j.i]
    ensures Fits(OnDisk(sb, j.disk, j.i).(ino := inodes[j.i]))
  {
    assert OwnerOk(sb, disk, inodes, owner, IBlock(sb, j.i));
    assert FileOk(disk, owner, j.i, inodes[j.i]);
    AddrsFit(sb, disk, inodes, owner, j.i);
  }

  lemma ExtendEnd(sb: Super, j: Write, n0: nat, disk1: Disk, inodes: Inodes, owner: Owners, p: Bytes, n: nat, disk: Disk,
                  d: Dinode)
    requires Made(sb, j.disk, j.inodes, j.owner, n0) && AllTight(j.disk, j.inodes)
    requires Extending(sb, j, n0, disk1, inodes, owner, p, n) && Updated(sb, disk1, disk, j.i, d) && Fits(d)
    requires d.ino == inodes[j.i] && d.kind == OnDisk(sb, j.disk, j.i).kind
    ensures Extended(sb, j, n0, disk, inodes, owner, p, n) && Room(sb, n0, j.off, j.off + |p|)
  {
    AppendEnd(sb, j, n0, disk1, inodes, owner, p, n, disk, d);
    ExtendedRoom(sb, j, n0, disk, inodes, owner, p, n);
  }

  // ----- the start ---------------------------------------------------------

  ghost function StartOwners(sb: Super): Owners {
    map b: nat | b < Nmeta(sb) :: MetaOwner(sb, b)
  }

  ghost function StartInodes(sb: Super): Inodes
    requires Layout(sb)
  {
    map i: nat | i < Ninodes(sb) :: StartInode(i)
  }

  function StartInode(i: nat): Inode {
    Empty()
  }

  lemma ZeroInode(w: nat)
    requires w + IWORDS <= NINDIRECT
    ensures GetDinode(Zeros(), w) == Dinode(0, 0, 0, 0, Empty())
  {
    forall k | 0 <= k < NINDIRECT ensures Word(Zeros(), k) == 0 {
    }
    assert GetDinode(Zeros(), w).ino.addrs == Empty().addrs;
  }

  lemma StartTable(sb: Super, disk: Disk, i: nat)
    requires Layout(sb) && DiskOk(sb, disk) && (forall b :: 2 <= b < sb.size ==> disk[b] == Zeros()) && i < Ninodes(sb)
    ensures sb.inodestart <= IBlock(sb, i) < sb.bmapstart && OnDisk(sb, disk, i) == Dinode(0, 0, 0, 0, Empty())
  {
    ZeroInode(Slot(i));
  }

  lemma EmptyFile(disk: Disk, owner: Owners, i: nat)
    ensures FileOk(disk, owner, i, Empty()) && Tight(disk, Empty())
  {
    forall bn | 0 <= bn < MAXFILE ensures Addr(disk, Empty(), bn) == 0 && BlockOk(disk, owner, i, Empty(), bn) {
    }
  }

  lemma StartOwned(sb: Super, disk: Disk)
    requires Layout(sb) && DiskOk(sb, disk) && forall b :: 2 <= b < sb.size ==> disk[b] == Zeros()
    ensures Owned(sb, disk, StartInodes(sb), StartOwners(sb))
  {
    var inodes, owner := StartInodes(sb), StartOwners(sb);
    forall i | i in inodes ensures FileOk(disk, owner, i, inodes[i]) {
      EmptyFile(disk, owner, i);
    }
    forall i | i in inodes ensures IBlock(sb, i) in owner && owner[IBlock(sb, i)] == Table {
      StartTable(sb, disk, i);
    }
    forall b | b in owner ensures OwnerOk(sb, disk, inodes, owner, b) {
    }
    forall b | 0 <= b < Nmeta(sb) ensures LaidOut(sb, owner, b) {
    }
  }

  lemma StartMade(sb: Super, disk: Disk)
    requires Layout(sb) && DiskOk(sb, disk) && forall b :: 2 <= b < sb.size ==> disk[b] == Zeros()
    ensures Made(sb, disk, StartInodes(sb), StartOwners(sb), Nmeta(sb)) && AllTight(disk, StartInodes(sb))
    ensures forall i :: i in StartInodes(sb) ==> OnDisk(sb, disk, i).kind == 0
  {
    var inodes, owner := StartInodes(sb), StartOwners(sb);
    StartOwned(sb, disk);
    forall i | i in inodes ensures OnDisk(sb, disk, i) == Dinode(0, 0, 0, 0, Empty()) && Tight(disk, inodes[i]) {
      EmptyFile(disk, owner, i);
      StartTable(sb, disk, i);
    }
  }

  // ----- the bitmap --------------------------------------------------------

  /** The bits below n are set in the first bitmap block. */
  ghost predicate BitsBelow(a: Bytes, n: nat) {
    |a| == BSIZE && forall c {:trigger BitBelow(a, n, c)} :: 0 <= c < BPB ==> BitBelow(a, n, c)
  }

  lemma BitsBelowStart()
    ensures BitsBelow(Zeros(), 0)
  {
    forall c | 0 <= c < BPB ensures BitBelow(Zeros(), 0, c) {
      NoBits(BitOf(c));
    }
  }

  ghost predicate BitBelow(a: Bytes, n: nat, c: nat)
    requires |a| == BSIZE
  {
    Bit(a[ByteOf(c)], BitOf(c)) <==> c < n
  }

  lemma BitsBelowNext(a: Bytes, n: nat)
    requires BitsBelow(a, n) && n < BPB
    ensures BitsBelow(PutByte(a, ByteOf(n), OrByte(a[ByteOf(n)], BitOf(n))), n + 1)
  {
    var a' := PutByte(a, ByteOf(n), OrByte(a[ByteOf(n)], BitOf(n)));
    assert BitBelow(a, n, n);
    var n' := n + 1;
    forall c | 0 <= c < BPB ensures BitBelow(a', n', c) {
      assert BitBelow(a, n, c);
      BitSet(a, n, c);
    }
  }

  lemma FirstBlock(n: nat)
    requires n < BPB
    ensures ByteOf(n) == n / 8 && BitOf(n) == n % 8
  {
  }

  lemma BitSet(a: Bytes, n: nat, c: nat)
    requires |a| == BSIZE && n < BPB && c < BPB && !Bit(a[ByteOf(n)], BitOf(n))
    ensures Bit(PutByte(a, ByteOf(n), OrByte(a[ByteOf(n)], BitOf(n)))[ByteOf(c)], BitOf(c)) <==>
            Bit(a[ByteOf(c)], BitOf(c)) || c == n
  {
    SetBit(a[ByteOf(n)], BitOf(n), BitOf(c));
    if ByteOf(c) == ByteOf(n) && BitOf(c) == BitOf(n) {
      BitPlace(Super(0, 0, 0), c, n);
    }
  }

  /** The bitmap agrees, and the files are as they were. */
  ghost predicate Bitmapped(sb: Super, disk: Disk, disk': Disk, inodes: Inodes, owner: Owners) {
    && Repr(sb, disk', inodes, owner) && TableIs(sb, disk', inodes)
    && (forall i :: i in inodes ==> SameAddrs(disk, inodes[i], disk', inodes[i]))
    && (forall i :: i in inodes ==> Content(disk', inodes[i]) == Content(disk, inodes[i]))
  }

  /** With that block the bitmap agrees. */
  lemma BitmapMade(sb: Super, disk: Disk, inodes: Inodes, owner: Owners, n: nat, a: Bytes)
    requires Made(sb, disk, inodes, owner, n) && n < BPB && BitsBelow(a, n)
    ensures Bitmapped(sb, disk, disk[sb.bmapstart := a], inodes, owner)
  {
    var disk' := disk[sb.bmapstart := a];
    OtherBlockOwned(sb, disk, inodes, owner, sb.bmapstart, a);
    forall b | 0 <= b < sb.size ensures BitOk(sb, disk', owner, b) {
      BitMade(sb, disk, owner, n, a, b);
    }
    forall c | c in owner ensures c in disk {
      assert OwnerOk(sb, disk, inodes, owner, c);
    }
    forall i | i in inodes ensures Content(disk', inodes[i]) == Content(disk, inodes[i]) {
      assert FileOk(disk, owner, i, inodes[i]);
      ContentKept(disk, owner, i, inodes[i], disk', inodes[i]);
    }
    TableKept(sb, disk, inodes, owner, disk');
  }

  lemma BitMade(sb: Super, disk: Disk, owner: Owners, n: nat, a: Bytes, b: nat)
    requires Layout(sb) && Laying(sb, disk, owner, n) && n < BPB && BitsBelow(a, n) && b < sb.size
    ensures BitOk(sb, disk[sb.bmapstart := a], owner, b)
  {
    var m := BBlock(sb, b);
    assert sb.bmapstart <= m < Nmeta(sb);
    assert owner[m] == MetaOwner(sb, m);
    if b < BPB {
      assert m == sb.bmapstart;
      assert BitBelow(a, n, b);
    } else {
      assert m > sb.bmapstart;
      NoBits(BitOf(b));
    }
  }

  // ----- the root directory ------------------------------------------------

  /** mkfs counts the root directory as ending with its last block, and if that is full, with
      one more, which is a hole. */
  function Rounded(size: nat): nat {
    (size / BSIZE + 1) * BSIZE
  }

  /** Writing an inode block leaves the files. */
  lemma TableWrite(sb: Super, disk: Disk, inodes: Inodes, owner: Owners, n: nat, disk': Disk, m: nat)
    requires Layout(sb) && Owned(sb, disk, inodes, owner) && Laying(sb, disk, owner, n) && AllTight(disk, inodes)
    requires m in owner && owner[m] == Table && m in disk' && |disk'[m]| == BSIZE && disk' == disk[m := disk'[m]]
    ensures Owned(sb, disk', inodes, owner) && Laying(sb, disk', owner, n) && AllTight(disk', inodes)
    ensures forall k :: k in inodes ==> Content(disk', inodes[k]) == Content(disk, inodes[k])
  {
    OtherBlockOwned(sb, disk, inodes, owner, m, disk'[m]);
    forall c | c in owner ensures c in disk {
      assert OwnerOk(sb, disk, inodes, owner, c);
    }
    forall k | k in inodes ensures Tight(disk', inodes[k]) && Content(disk', inodes[k]) == Content(disk, inodes[k]) {
      assert FileOk(disk, owner, k, inodes[k]);
      ContentKept(disk, owner, k, inodes[k], disk', inodes[k]);
    }
    forall b | sb.bmapstart <= b < Nmeta(sb) || n <= b < sb.size ensures b in disk' && disk'[b] == Zeros() {
      assert b != m;
    }
  }

  /** The first bitmap block has changed, if any: it has the bits below n. */
  ghost predicate BitmapOnly(sb: Super, disk: Disk, disk': Disk, ok: bool, n: nat) {
    if ok then
      && sb.bmapstart in disk' && disk' == disk[sb.bmapstart := disk'[sb.bmapstart]]
      && BitsBelow(disk'[sb.bmapstart], n)
    else disk' == disk
  }

  /** A block that is not of the inode table leaves the inodes. */
  lemma TableStays(sb: Super, disk: Disk, disk': Disk, inodes: Inodes, ok: bool, n: nat)
    requires Layout(sb) && TableIs(sb, disk, inodes) && forall i :: i in inodes ==> i < Ninodes(sb)
    requires BitmapOnly(sb, disk, disk', ok, n)
    ensures TableIs(sb, disk', inodes)
  {
    forall i | i in inodes ensures OnDisk(sb, disk', i) == OnDisk(sb, disk, i) {
      assert IBlock(sb, i) < sb.bmapstart;
    }
  }

  lemma RoundedMade(sb: Super, disk: Disk, inodes: Inodes, owner: Owners, n: nat, i: nat, disk': Disk, d: Dinode)
    requires Made(sb, disk, inodes, owner, n) && AllTight(disk, inodes) && i in inodes
    requires Updated(sb, disk, disk', i, d) && Fits(d) && d.ino == inodes[i].(size := Rounded(inodes[i].size))
    requires inodes[i].size < MAXFILE * BSIZE
    ensures
      var inodes' := inodes[i := d.ino];
      && Made(sb, disk', inodes', owner, n)
      && (forall k :: k in inodes && k != i ==>
            Tight(disk', inodes'[k]) && Content(disk', inodes'[k]) == Content(disk, inodes[k]))
      && (HoleFree(disk', d.ino) <==> inodes[i].size % BSIZE != 0)
      && Content(disk', d.ino)[..inodes[i].size] == Content(disk, inodes[i])
  {
    TableWrite(sb, disk, inodes, owner, n, disk', IBlock(sb, i));
    RoundedOwned(sb, disk', inodes, owner, i);
    RoundedHole(disk', inodes[i], d.ino);
  }

  lemma RoundedOwned(sb: Super, disk: Disk, inodes: Inodes, owner: Owners, i: nat)
    requires Owned(sb, disk, inodes, owner) && i in inodes && inodes[i].size < MAXFILE * BSIZE
    ensures Owned(sb, disk, inodes[i := inodes[i].(size := Rounded(inodes[i].size))], owner)
  {
    var ino' := inodes[i].(size := Rounded(inodes[i].size));
    var inodes' := inodes[i := ino'];
    assert FileOk(disk, owner, i, inodes[i]);
    assert forall k :: 0 <= k < MAXFILE ==> Addr(disk, ino', k) == Addr(disk, inodes[i], k);
    forall j | j in inodes' ensures FileOk(disk, owner, j, inodes'[j]) {
      assert FileOk(disk, owner, j, inodes[j]);
      forall k | 0 <= k < MAXFILE ensures BlockOk(disk, owner, j, inodes'[j], k) {
        assert BlockOk(disk, owner, j, inodes[j], k);
      }
    }
    forall c | c in owner ensures OwnerOk(sb, disk, inodes', owner, c) {
      assert OwnerOk(sb, disk, inodes, owner, c);
    }
  }

  lemma RoundedHole(disk: Disk, ino: Inode, ino': Inode)
    requires Tight(disk, ino) && ino.size < MAXFILE * BSIZE && ino' == ino.(size := Rounded(ino.size))
    ensures HoleFree(disk, ino') <==> ino.size % BSIZE != 0
    ensures Content(disk, ino')[..ino.size] == Content(disk, ino)
  {
    var last := ino.size / BSIZE;
    assert forall k :: 0 <= k < MAXFILE ==> Addr(disk, ino', k) == Addr(disk, ino, k);
    assert Addr(disk, ino, last) != 0 <==> last * BSIZE < ino.size;
    if ino.size % BSIZE != 0 {
      forall k | 0 <= k < MAXFILE && k * BSIZE < ino'.size ensures Addr(disk, ino', k) != 0 {
        assert k <= last;
      }
    }
    forall o | 0 <= o < ino.size ensures ByteAt(disk, ino', o) == ByteAt(disk, ino, o) {
    }
  }

  // ----- mkfs --------------------------------------------------------------

  class Image {
    const sb: Super
    var disk: Disk
    var freeinode: nat
    var freeblock: nat

    /** All blocks zeroed, but for the superblock. */
    constructor (sb: Super, super: Bytes)
      requires Layout(sb) && |super| == BSIZE
      ensures this.sb == sb && freeinode == 1 && freeblock == Nmeta(sb)
      ensures Made(sb, disk, StartInodes(sb), StartOwners(sb), freeblock) && AllTight(disk, StartInodes(sb))
      ensures forall i :: i in StartInodes(sb) ==> OnDisk(sb, disk, i).kind == 0
    {
      this.sb, freeinode, freeblock := sb, 1, Nmeta(sb);
      var d: Disk := map[];
      for i := 0 to sb.size
        invariant forall b :: 0 <= b < i ==> b in d && d[b] == Zeros()
      {
        d := d[i := Zeros()];
      }
      d := d[1 := super];
      disk := d;
      StartMade(sb, d);
    }

    method Rinode(inum: nat, ghost inodes: Inodes, ghost owner: Owners) returns (d: Dinode)
      requires Made(sb, disk, inodes, owner, freeblock) && inum in inodes
      ensures IBlock(sb, inum) in disk && |disk[IBlock(sb, inum)]| == BSIZE
      ensures d == OnDisk(sb, disk, inum) && d.ino == inodes[inum] && Fits(d)
    {
      assert OwnerOk(sb, disk, inodes, owner, IBlock(sb, inum));
      d := OnDisk(sb, disk, inum);
    }

    method Winode(inum: nat, d: Dinode)
      requires IBlock(sb, inum) in disk && |disk[IBlock(sb, inum)]| == BSIZE && Fits(d)
      modifies this`disk
      ensures Updated(sb, old(disk), disk, inum, d)
    {
      var m := IBlock(sb, inum);
      var b := StoreDinode(disk[m], Slot(inum), d);
      UpdatedIs(sb, disk, inum, d, b);
      disk := disk[m := b];
    }

    /** A new inode of the given type, with one link. */
    method Ialloc(kind: nat, ghost inodes: Inodes, ghost owner: Owners) returns (inum: nat)
      requires Made(sb, disk, inodes, owner, freeblock) && AllTight(disk, inodes) && kind < SHORT
      requires freeinode in inodes && inodes[freeinode] == Empty()
      modifies this`disk, this`freeinode
      ensures inum == old(freeinode) && freeinode == inum + 1
      ensures OnDisk(sb, disk, inum) == Dinode(kind, 0, 0, 1, Empty())
      ensures Made(sb, disk, inodes, owner, freeblock) && AllTight(disk, inodes)
      ensures forall k :: k in inodes ==> Content(disk, inodes[k]) == Content(old(disk), inodes[k])
      ensures forall k :: k in inodes && k != inum ==> OnDisk(sb, disk, k) == OnDisk(sb, old(disk), k)
    {
      inum := freeinode;
      freeinode := freeinode + 1;
      ghost var m := IBlock(sb, inum);
      assert OwnerOk(sb, disk, inodes, owner, m);
      Winode(inum, Dinode(kind, 0, 0, 1, Empty()));
      TableWrite(sb, old(disk), inodes, owner, freeblock, disk, m);
    }

    /** The block of a file, the next one if it has none.  It fails when the disk is full: a
        sector past the end cannot be read. */
    method MapDirect(addrs: seq<nat>, bn: nat, ghost inodes: Inodes, ghost owner: Owners, ghost i: nat)
      returns (ok: bool, addrs': seq<nat>, x: nat, ghost ino': Inode, ghost owner': Owners)
      requires Owned(sb, disk, inodes, owner) && Laying(sb, disk, owner, freeblock) && i in inodes && bn < NDIRECT
      requires addrs == inodes[i].addrs
      modifies this`freeblock
      ensures ok ==> Mapped(sb, disk, inodes, owner, i, bn, disk, ino', owner') && Laying(sb, disk, owner', freeblock)
      ensures ok ==> ino'.addrs == addrs' && x == Addr(disk, ino', bn)
      ensures |inodes[i].addrs| == NDIRECT + 1 && (ok <==> old(freeblock) + New(disk, inodes[i], bn) <= sb.size)
      ensures ok ==> freeblock == old(freeblock) + New(disk, inodes[i], bn)
    {
      assert FileOk(disk, owner, i, inodes[i]);
      ok, addrs', x, ino', owner' := true, addrs, addrs[bn], inodes[i], owner;
      assert inodes[i := inodes[i]] == inodes;
      if x == 0 {
        x := freeblock;
        freeblock := freeblock + 1;
        addrs' := addrs[bn := x];
        ok := x < sb.size;
        if ok {
          TakeDirect(sb, disk, inodes, owner, i, bn, x);
          ino', owner' := PutAddr(inodes[i], bn, x), owner[x := Data(i, bn)];
        }
      }
    }

    method MapIndirect(addrs: seq<nat>, ghost inodes: Inodes, ghost owner: Owners, ghost i: nat)
      returns (ok: bool, addrs': seq<nat>, ghost ino': Inode, ghost owner': Owners)
      requires Owned(sb, disk, inodes, owner) && Laying(sb, disk, owner, freeblock) && i in inodes && addrs == inodes[i].addrs
      modifies this`freeblock
      ensures ok ==> Owned(sb, disk, inodes[i := ino'], owner') && Laying(sb, disk, owner', freeblock)
      ensures ok ==> SameAddrs(disk, inodes[i], disk, ino') && Kept(disk, disk, owner, owner', i)
      ensures ok ==> ino'.addrs == addrs' && ino'.size == inodes[i].size && ino'.addrs[NDIRECT] != 0
      ensures |inodes[i].addrs| == NDIRECT + 1
      ensures if inodes[i].addrs[NDIRECT] != 0 then ok && ino' == inodes[i] && owner' == owner && freeblock == old(freeblock)
              else (ok <==> old(freeblock) < sb.size) && freeblock == old(freeblock) + 1
    {
      assert FileOk(disk, owner, i, inodes[i]);
      ok, addrs', ino', owner' := true, addrs, inodes[i], owner;
      assert inodes[i := inodes[i]] == inodes;
      if addrs[NDIRECT] == 0 {
        var d := freeblock;
        freeblock := freeblock + 1;
        addrs' := addrs[NDIRECT := d];
        ok := d < sb.size;
        if ok {
          TakeIndirect(sb, disk, inodes, owner, i, d);
          ino', owner' := PutAddr(inodes[i], NDIRECT, d), owner[d := Indirect(i)];
        }
      }
    }

    method MapThrough(d: nat, bn: nat, ghost inodes: Inodes, ghost owner: Owners, ghost i: nat)
      returns (ok: bool, x: nat, ghost owner': Owners)
      requires Owned(sb, disk, inodes, owner) && Laying(sb, disk, owner, freeblock) && i in inodes
      requires |inodes[i].addrs| == NDIRECT + 1 && d == inodes[i].addrs[NDIRECT] != 0 && NDIRECT <= bn < MAXFILE
      modifies this`disk, this`freeblock
      ensures ok ==> Mapped(sb, old(disk), inodes, owner, i, bn, disk, inodes[i], owner') && Laying(sb, disk, owner', freeblock)
      ensures ok ==> x == Addr(disk, inodes[i], bn)
      ensures ok <==> old(freeblock) + New(old(disk), inodes[i], bn) <= sb.size
      ensures ok ==> freeblock == old(freeblock) + New(old(disk), inodes[i], bn)
    {
      assert FileOk(disk, owner, i, inodes[i]);
      assert OwnerOk(sb, disk, inodes, owner, d);
      x := Word(disk[d], bn - NDIRECT);
      ok, owner' := true, owner;
      assert inodes[i := inodes[i]] == inodes;
      if x == 0 {
        x := freeblock;
        freeblock := freeblock + 1;
        ok := x < sb.size;
        if ok {
          TakeThrough(sb, disk, inodes, owner, i, bn, x, d);
          owner' := owner[x := Data(i, bn)];
        }
        disk := disk[d := PutWord(disk[d], bn - NDIRECT, x)];
      }
    }

    method MapBlock(addrs: seq<nat>, bn: nat, ghost inodes: Inodes, ghost owner: Owners, ghost i: nat)
      returns (ok: bool, addrs': seq<nat>, x: nat, ghost ino': Inode, ghost owner': Owners)
      requires Owned(sb, disk, inodes, owner) && Laying(sb, disk, owner, freeblock) && i in inodes && bn < MAXFILE
      requires addrs == inodes[i].addrs
      modifies this`disk, this`freeblock
      ensures ok ==> Mapped(sb, old(disk), inodes, owner, i, bn, disk, ino', owner') && Laying(sb, disk, owner', freeblock)
      ensures ok ==> ino'.addrs == addrs' && x == Addr(disk, ino', bn)
      ensures |inodes[i].addrs| == NDIRECT + 1 && (ok <==> old(freeblock) + New(old(disk), inodes[i], bn) <= sb.size)
      ensures ok ==> freeblock == old(freeblock) + New(old(disk), inodes[i], bn)
    {
      if bn < NDIRECT {
        ok, addrs', x, ino', owner' := MapDirect(addrs, bn, inodes, owner, i);
      } else {
        x := 0;
        ok, addrs', ino', owner' := MapIndirect(addrs, inodes, owner, i);
        if ok {
          ghost var owner1 := owner';
          ok, x, owner' := MapThrough(addrs'[NDIRECT], bn, inodes[i := ino'], owner', i);
          if ok {
            MappedTrans(sb, old(disk), inodes, owner, i, bn, old(disk), ino', owner1, disk, owner');
          }
        }
      }
    }

    /** The bytes of p from k to k' go to block bn of the file, from byte y. */
    method AppendInto(addrs: seq<nat>, p: Bytes, k: nat, k': nat, bn: nat, y: nat, ghost j: Write, ghost inodes: Inodes,
                      ghost owner: Owners)
      returns (ok: bool, addrs': seq<nat>, ghost inodes': Inodes, ghost owner': Owners)
      requires k < k' <= |p| && At(j.off + k, bn, y) && y + k' - k <= BSIZE && bn < MAXFILE
      requires Appending(sb, j, disk, inodes, owner, p[..k], freeblock) && addrs == inodes[j.i].addrs
      modifies this`disk, this`freeblock
      ensures ok ==> Appending(sb, j, disk, inodes', owner', p[..k'], freeblock) && addrs' == inodes'[j.i].addrs
      ensures |inodes[j.i].addrs| == NDIRECT + 1 && (ok <==> old(freeblock) + New(old(disk), inodes[j.i], bn) <= sb.size)
      ensures ok ==> freeblock == old(freeblock) + New(old(disk), inodes[j.i], bn)
    {
      ghost var disk0, m, ino1 := disk, freeblock, inodes[j.i];
      inodes' := inodes;
      var x;
      ok, addrs', x, ino1, owner' := MapBlock(addrs, bn, inodes, owner, j.i);
      if ok {
        AppendRound(sb, j, disk0, inodes, owner, p[..k], p[k..k'], bn, y, disk, ino1, owner', m, freeblock, x);
        LongerPrefix(p, k, k');
        disk := Stored(disk, x, y, p[k..k']);
        inodes' := inodes[j.i := Longer(ino1, j.off + k')];
      }
    }

    /** One round of iappend: as much of p as fits the block at off. */
    method AppendBlock(addrs: seq<nat>, p: Bytes, k: nat, off: nat, ghost j: Write, ghost n0: nat, ghost inodes: Inodes,
                       ghost owner: Owners)
      returns (ok: bool, addrs': seq<nat>, k': nat, ghost inodes': Inodes, ghost owner': Owners)
      requires k < |p| && off == j.off + k && Extending(sb, j, n0, disk, inodes, owner, p[..k], freeblock)
      requires addrs == inodes[j.i].addrs
      modifies this`disk, this`freeblock
      ensures ok ==> k < k' <= |p| && Extending(sb, j, n0, disk, inodes', owner', p[..k'], freeblock)
      ensures ok ==> addrs' == inodes'[j.i].addrs
      ensures !ok ==> !Room(sb, n0, j.off, j.off + |p|)
    {
      ghost var m := freeblock;
      addrs', inodes', owner' := addrs, inodes, owner;
      var bn, y, n1 := Piece(off, |p| - k);
      k' := k + n1;
      RoundRoom(sb, disk, inodes[j.i], off, bn, y, n1, n0, j.off, m, |p| - k);
      ok := bn < MAXFILE;
      if ok {
        ok, addrs', inodes', owner' := AppendInto(addrs, p, k, k', bn, y, j, inodes, owner);
      }
    }

    /** Its rounds. */
    method AppendLoop(addrs: seq<nat>, off: nat, p: Bytes, ghost j: Write)
      returns (ok: bool, addrs': seq<nat>, ghost inodes: Inodes, ghost owner: Owners)
      requires Extending(sb, j, freeblock, disk, j.inodes, j.owner, [], freeblock) && disk == j.disk
      requires addrs == j.inodes[j.i].addrs && off == j.off
      modifies this`disk, this`freeblock
      ensures ok ==> Extending(sb, j, old(freeblock), disk, inodes, owner, p, freeblock) && addrs' == inodes[j.i].addrs
      ensures !ok ==> !Room(sb, old(freeblock), j.off, j.off + |p|)
    {
      ghost var n0 := freeblock;
      var k := 0;
      ok, addrs', inodes, owner := true, addrs, j.inodes, j.owner;
      WholePrefix(p);
      while k < |p|
        invariant ok && k <= |p| && Extending(sb, j, n0, disk, inodes, owner, p[..k], freeblock)
        invariant addrs' == inodes[j.i].addrs
        decreases |p| - k
      {
        ok, addrs', k, inodes, owner := AppendBlock(addrs', p, k, off + k, j, n0, inodes, owner);
        if !ok {
          return;
        }
      }
    }

    /** And its inode. */
    method AppendInode(inum: nat, din: Dinode, off: nat, addrs: seq<nat>, ghost p: Bytes, ghost j: Write, ghost n0: nat,
                       ghost inodes: Inodes, ghost owner: Owners)
      requires Made(sb, j.disk, j.inodes, j.owner, n0) && AllTight(j.disk, j.inodes)
      requires Extending(sb, j, n0, disk, inodes, owner, p, freeblock) && inum == j.i
      requires din == OnDisk(sb, j.disk, inum) && off == j.off + |p| && addrs == inodes[j.i].addrs
      modifies this`disk
      ensures Extended(sb, j, n0, disk, inodes, owner, p, freeblock) && Room(sb, n0, j.off, j.off + |p|)
    {
      ghost var disk1 := disk;
      InodeThere(sb, j, n0, disk, inodes, owner, p, freeblock);
      var d := din.(ino := Inode(off, addrs));
      Winode(inum, d);
      ExtendEnd(sb, j, n0, disk1, inodes, owner, p, freeblock, disk, d);
    }

    /** iappend.  It fails just when the bytes make the file too large, or the blocks they need
        are not there. */
    method Iappend(inum: nat, p: Bytes, ghost inodes: Inodes, ghost owner: Owners)
      returns (ok: bool, ghost inodes': Inodes, ghost owner': Owners)
      requires Made(sb, disk, inodes, owner, freeblock) && AllTight(disk, inodes) && inum in inodes
      modifies this`disk, this`freeblock
      ensures ok ==>
                var j := Write(old(disk), inodes, owner, inum, inodes[inum].size);
                Extended(sb, j, old(freeblock), disk, inodes', owner', p, freeblock)
      ensures ok <==> Room(sb, old(freeblock), inodes[inum].size, inodes[inum].size + |p|)
    {
      var din := Rinode(inum, inodes, owner);
      ghost var j, n0 := Write(disk, inodes, owner, inum, inodes[inum].size), freeblock;
      AppendStart(sb, j, freeblock);
      var off, addrs := din.ino.size, din.ino.addrs;
      ok, addrs, inodes', owner' := AppendLoop(addrs, off, p, j);
      if ok {
        AppendInode(inum, din, off + |p|, addrs, p, j, n0, inodes', owner');
      }
    }

    /** balloc: the bits of the blocks handed out.  It fails if they are not under one bitmap
        block. */
    method Balloc(ghost inodes: Inodes, ghost owner: Owners) returns (ok: bool)
      modifies this`disk
      ensures ok <==> freeblock < BPB
      ensures ok && old(Made(sb, disk, inodes, owner, freeblock)) ==> Bitmapped(sb, old(disk), disk, inodes, owner)
      ensures BitmapOnly(sb, old(disk), disk, ok, freeblock)
    {
      ok := freeblock < BPB;
      if ok {
        var buf := BitBlock(freeblock);
        if Made(sb, disk, inodes, owner, freeblock) {
          BitmapMade(sb, disk, inodes, owner, freeblock, buf);
        }
        disk := disk[sb.bmapstart := buf];
      }
    }

    /** One read of the source file, at most a block, appended. */
    method AppendRead(inum: nat, p: Bytes, k: nat, ghost j: Write, ghost n0: nat, ghost inodes: Inodes, ghost owner: Owners)
      returns (ok: bool, k': nat, ghost inodes': Inodes, ghost owner': Owners)
      requires k < |p| && Extended(sb, j, n0, disk, inodes, owner, p[..k], freeblock)
      requires j.i == inum && j.off == j.inodes[inum].size
      modifies this`disk, this`freeblock
      ensures ok ==> k < k' <= |p| && Extended(sb, j, n0, disk, inodes', owner', p[..k'], freeblock)
      ensures !ok ==> !Room(sb, n0, j.off, j.off + |p|)
    {
      k' := if |p| - k < BSIZE then |p| else k + BSIZE;
      ghost var disk1, n1 := disk, freeblock;
      ok, inodes', owner' := Iappend(inum, p[k..k'], inodes, owner);
      if ok {
        ExtendedTrans(sb, j, n0, n1, disk1, inodes, owner, p, k, k', disk, inodes', owner', freeblock);
      } else {
        ExtendedFull(sb, j, n0, n1, disk1, inodes, owner, p, k, k');
      }
    }

    /** All of it. */
    method AppendFile(inum: nat, p: Bytes, ghost inodes: Inodes, ghost owner: Owners)
      returns (ok: bool, ghost inodes': Inodes, ghost owner': Owners)
      requires Made(sb, disk, inodes, owner, freeblock) && AllTight(disk, inodes) && inum in inodes
      modifies this`disk, this`freeblock
      ensures ok ==>
                var j := Write(old(disk), inodes, owner, inum, inodes[inum].size);
                Extended(sb, j, old(freeblock), disk, inodes', owner', p, freeblock)
      ensures ok <==> Room(sb, old(freeblock), inodes[inum].size, inodes[inum].size + |p|)
    {
      ghost var j, n0 := Write(disk, inodes, owner, inum, inodes[inum].size), freeblock;
      ok, inodes', owner' := true, inodes, owner;
      var k := 0;
      AppendedStart(sb, j, freeblock);
      WholePrefix(p);
      while k < |p|
        invariant ok && k <= |p| && Extended(sb, j, n0, disk, inodes', owner', p[..k], freeblock)
        decreases |p| - k
      {
        ok, k, inodes', owner' := AppendRead(inum, p, k, j, n0, inodes', owner');
        if !ok {
          return;
        }
      }
      ExtendedRoom(sb, j, n0, disk, inodes', owner', p, freeblock);
    }

    method AddEntry(e: Bytes, ghost es: seq<Bytes>, ghost fs: seq<Bytes>, ghost inodes: Inodes, ghost owner: Owners)
      returns (ok: bool, ghost inodes': Inodes, ghost owner': Owners)
      requires Ready(sb, disk, inodes, owner, freeblock, es, fs, freeinode) && freeinode > ROOT
      modifies this`disk, this`freeblock
      ensures ok ==> Ready(sb, disk, inodes', owner', freeblock, es + [e], fs, freeinode)
      ensures ok <==> Enough(sb, |Concat(es + [e])|, fs)
      ensures ok ==> inodes'.Keys == inodes.Keys && forall x :: x in inodes && x != ROOT ==> inodes'[x] == inodes[x]
    {
      ghost var j := Write(disk, inodes, owner, ROOT, inodes[ROOT].size);
      ghost var n0 := freeblock;
      RootEnough(sb, disk, inodes, owner, freeblock, es, fs, freeinode, e);
      ok, inodes', owner' := Iappend(ROOT, e, inodes, owner);
      if ok {
        RootReady(sb, j, n0, disk, inodes', owner', e, freeblock, es, fs, freeinode);
      }
    }

    method AddInode(ghost es: seq<Bytes>, ghost fs: seq<Bytes>, ghost inodes: Inodes, ghost owner: Owners)
      returns (inum: nat)
      requires Ready(sb, disk, inodes, owner, freeblock, es, fs, freeinode) && freeinode < Ninodes(sb)
      modifies this`disk, this`freeinode
      ensures inum == old(freeinode) && freeinode == inum + 1 && inum in inodes && inodes[inum] == Empty()
      ensures Ready(sb, disk, inodes, owner, freeblock, es, fs, freeinode)
    {
      inum := Ialloc(T_FILE, inodes, owner);
      FilesStay(old(disk), disk, inodes, es, fs, inum);
    }

    method AddContent(inum: nat, p: Bytes, ghost es: seq<Bytes>, ghost fs: seq<Bytes>, ghost inodes: Inodes,
                      ghost owner: Owners)
      returns (ok: bool, ghost inodes': Inodes, ghost owner': Owners)
      requires Ready(sb, disk, inodes, owner, freeblock, es, fs, freeinode) && inum in inodes && inodes[inum] == Empty()
      requires inum == |fs| + 2 < freeinode
      modifies this`disk, this`freeblock
      ensures ok ==> Ready(sb, disk, inodes', owner', freeblock, es, fs + [p], freeinode)
      ensures ok <==> Enough(sb, |Concat(es)|, fs + [p])
    {
      ghost var j, n0 := Write(disk, inodes, owner, inum, inodes[inum].size), freeblock;
      FileEnough(sb, freeblock, es, fs, p);
      ok, inodes', owner' := AppendFile(inum, p, inodes, owner);
      if ok {
        FileReady(sb, j, n0, disk, inodes', owner', p, freeblock, es, fs, freeinode);
      }
    }

    method AddFile(e: Bytes, p: Bytes, ghost es: seq<Bytes>, ghost fs: seq<Bytes>, ghost inodes: Inodes,
                   ghost owner: Owners)
      returns (ok: bool, ghost inodes': Inodes, ghost owner': Owners)
      requires Ready(sb, disk, inodes, owner, freeblock, es, fs, freeinode) && freeinode == |fs| + 2 < Ninodes(sb)
      modifies this
      ensures ok ==> freeinode == |fs| + 3 && Ready(sb, disk, inodes', owner', freeblock, es + [e], fs + [p], freeinode)
      ensures ok <==> Enough(sb, |Concat(es + [e])|, fs + [p])
    {
      var inum := AddInode(es, fs, inodes, owner);
      ok, inodes', owner' := AddEntry(e, es, fs, inodes, owner);
      if ok {
        ok, inodes', owner' := AddContent(inum, p, es + [e], fs, inodes', owner');
      } else {
        NotEnoughMore(sb, |Concat(es + [e])|, fs, p);
      }
    }

    /** The root directory with its first two entries. */
    method MakeRoot(entries: seq<Bytes>, ghost inodes: Inodes, ghost owner: Owners)
      returns (ok: bool, ghost inodes': Inodes, ghost owner': Owners)
      requires Made(sb, disk, inodes, owner, freeblock) && AllTight(disk, inodes) && freeinode == ROOT
      requires inodes == StartInodes(sb) && |entries| >= 2 && freeblock == Nmeta(sb)
      modifies this
      ensures ok ==> freeinode == 2 && Ready(sb, disk, inodes', owner', freeblock, entries[..2], [], freeinode)
      ensures ok <==> Enough(sb, |Concat(entries[..2])|, [])
    {
      var root := Ialloc(T_DIR, inodes, owner);
      assert Content(disk, inodes[ROOT]) == Concat([]);
      WholePrefix(entries);
      NextPrefix(entries, 0);
      NextPrefix(entries, 1);
      ok, inodes', owner' := AddEntry(entries[0], entries[..0], [], inodes, owner);
      if !ok {
        NotEnough(sb, entries, [], 1, 2, 0, 0);
        return;
      }
      ok, inodes', owner' := AddEntry(entries[1], entries[..1], [], inodes', owner');
    }

    /** And each file with its entry. */
    method MakeFiles(entries: seq<Bytes>, files: seq<Bytes>, ghost inodes: Inodes, ghost owner: Owners)
      returns (ok: bool, ghost inodes': Inodes, ghost owner': Owners)
      requires Layout(sb) && |entries| == |files| + 2 <= Ninodes(sb) && freeinode == 2
      requires Ready(sb, disk, inodes, owner, freeblock, entries[..2], [], freeinode)
      modifies this
      ensures ok ==> Ready(sb, disk, inodes', owner', freeblock, entries, files, freeinode)
      ensures ok <==> Enough(sb, |Concat(entries)|, files)
    {
      var i := 0;
      ok, inodes', owner' := true, inodes, owner;
      WholePrefix(files);
      WholePrefix(entries);
      while i < |files|
        invariant i <= |files| && freeinode == i + 2
        invariant Ready(sb, disk, inodes', owner', freeblock, entries[..i + 2], files[..i], freeinode)
      {
        NextPrefix(entries, i + 2);
        NextPrefix(files, i);
        ok, inodes', owner' := AddFile(entries[i + 2], files[i], entries[..i + 2], files[..i], inodes', owner');
        if !ok {
          NotEnough(sb, entries, files, i + 3, |entries|, i + 1, |files|);
          return;
        }
        i := i + 1;
      }
    }

    /** The directory and the files. */
    method MakeAll(entries: seq<Bytes>, files: seq<Bytes>)
      returns (ok: bool, ghost inodes: Inodes, ghost owner: Owners)
      requires Layout(sb) && |entries| == |files| + 2 <= Ninodes(sb) && freeinode == ROOT && freeblock == Nmeta(sb)
      requires Made(sb, disk, StartInodes(sb), StartOwners(sb), freeblock) && AllTight(disk, StartInodes(sb))
      modifies this
      ensures ok <==> Enough(sb, |Concat(entries)|, files)
      ensures ok ==> Ready(sb, disk, inodes, owner, freeblock, entries, files, freeinode)
    {
      WholePrefix(entries);
      WholePrefix(files);
      ok, inodes, owner := MakeRoot(entries, StartInodes(sb), StartOwners(sb));
      if ok {
        ok, inodes, owner := MakeFiles(entries, files, inodes, owner);
      } else {
        NotEnough(sb, entries, files, 2, |entries|, 0, |files|);
      }
    }

    /** The size of the root directory. */
    method FixRoot(ghost inodes: Inodes, ghost owner: Owners) returns (ghost inodes': Inodes)
      requires Made(sb, disk, inodes, owner, freeblock) && AllTight(disk, inodes) && ROOT in inodes
      modifies this`disk
      ensures inodes[ROOT].size <= MAXFILE * BSIZE && TableIs(sb, disk, inodes')
      ensures inodes' == inodes[ROOT := inodes[ROOT].(size := Rounded(inodes[ROOT].size))]
      ensures inodes[ROOT].size < MAXFILE * BSIZE ==>
                && Made(sb, disk, inodes', owner, freeblock) && RootRounded(old(disk), inodes, disk, inodes')
                && (HoleFree(disk, inodes'[ROOT]) <==> inodes[ROOT].size % BSIZE != 0)
    {
      assert FileOk(disk, owner, ROOT, inodes[ROOT]);
      var din := Rinode(ROOT, inodes, owner);
      din := din.(ino := din.ino.(size := Rounded(din.ino.size)));
      Winode(ROOT, din);
      inodes' := inodes[ROOT := din.ino];
      if inodes[ROOT].size < MAXFILE * BSIZE {
        RoundedMade(sb, old(disk), inodes, owner, freeblock, ROOT, disk, din);
      }
    }

    /** With the files. */
    method RootEnd(ghost entries: seq<Bytes>, ghost files: seq<Bytes>, ghost inodes: Inodes, ghost owner: Owners)
      returns (ghost inodes': Inodes)
      requires Made(sb, disk, inodes, owner, freeblock) && AllTight(disk, inodes)
      requires Files(disk, inodes, entries, files, freeinode)
      modifies this`disk
      ensures Layout(sb) && ROOT in inodes' && inodes'[ROOT].size == Rounded(|Concat(entries)|)
      ensures TableIs(sb, disk, inodes') && forall i :: i in inodes' <==> 0 <= i < Ninodes(sb)
      ensures |Concat(entries)| < MAXFILE * BSIZE ==>
                && Made(sb, disk, inodes', owner, freeblock) && Holding(disk, inodes', entries, files)
                && (HoleFree(disk, inodes'[ROOT]) <==> |Concat(entries)| % BSIZE != 0)
    {
      ghost var disk0 := disk;
      assert |Content(disk, inodes[ROOT])| == inodes[ROOT].size;
      inodes' := FixRoot(inodes, owner);
      if inodes[ROOT].size < MAXFILE * BSIZE {
        RootFiles(disk0, inodes, disk, inodes', entries, files, freeinode);
      }
    }

    /** The end: the size of the root directory, and the bitmap. */
    method Finish(ghost entries: seq<Bytes>, ghost files: seq<Bytes>, ghost inodes: Inodes, ghost owner: Owners)
      returns (ok: bool, ghost inodes': Inodes)
      requires Made(sb, disk, inodes, owner, freeblock) && AllTight(disk, inodes)
      requires Files(disk, inodes, entries, files, freeinode)
      modifies this`disk
      ensures ok <==> freeblock < BPB
      ensures TableIs(sb, disk, inodes') && ROOT in inodes' && inodes'[ROOT].size == Rounded(|Concat(entries)|)
      ensures ok && |Concat(entries)| < MAXFILE * BSIZE ==>
                && Formatted(sb, disk, inodes', owner, entries, files)
                && (HoleFree(disk, inodes'[ROOT]) <==> |Concat(entries)| % BSIZE != 0)
    {
      inodes' := RootEnd(entries, files, inodes, owner);
      ghost var disk1 := disk;
      ok := Balloc(inodes', owner);
      TableStays(sb, disk1, disk, inodes', ok, freeblock);
      FinishFiles(sb, disk1, inodes', owner, disk, entries, files, ok, freeblock);
    }
  }

  /** mkfs, given the bytes of the directory entries and of the files.  The image is a file
      system with those files.  Its root directory has a hole if and only if the entries fill
      their blocks.  mkfs fails just when a file is too large, or what is used is more than the
      disk has or than one bitmap block covers.  Where the entries fill all blocks a file can
      have, it does not, but the size of the root directory is more than that of any file. */
  method Make(sb: Super, super: Bytes, entries: seq<Bytes>, files: seq<Bytes>)
    returns (ok: bool, disk: Disk, ghost inodes: Inodes, ghost owner: Owners)
    requires Layout(sb) && |super| == BSIZE && |entries| == |files| + 2 <= Ninodes(sb)
    requires forall k :: 0 <= k < |entries| ==> |entries[k]| == DIRENT
    ensures ok <==> Enough(sb, DIRENT * |entries|, files) && Used(sb, DIRENT * |entries|, files) < BPB
    ensures ok ==> (Formatted(sb, disk, inodes, owner, entries, files) <==> DIRENT * |entries| < MAXFILE * BSIZE)
    ensures ok && DIRENT * |entries| < MAXFILE * BSIZE ==> (HoleFree(disk, inodes[ROOT]) <==> |entries| % 32 != 0)
    ensures ok && DIRENT * |entries| == MAXFILE * BSIZE ==>
              && TableIs(sb, disk, inodes) && ROOT in inodes && inodes[ROOT].size == (MAXFILE + 1) * BSIZE
              && forall o :: !Repr(sb, disk, inodes, o)
  {
    ConcatLength(entries);
    EntriesFill(|entries|);
    var im := new Image(sb, super);
    disk := map[];
    ok, inodes, owner := im.MakeAll(entries, files);
    if !ok {
      return;
    }
    ok, inodes := im.Finish(entries, files, inodes, owner);
    disk := im.disk;
    if DIRENT * |entries| == MAXFILE * BSIZE {
      TooLarge(sb, disk, inodes, DIRENT * |entries|);
    }
  }

  /** No file of a consistent disk is longer than MAXFILE blocks. */
  lemma SizeOk(sb: Super, disk: Disk, inodes: Inodes, owner: Owners, i: nat)
    requires Repr(sb, disk, inodes, owner) && i in inodes
    ensures inodes[i].size <= MAXFILE * BSIZE
  {
    assert FileOk(disk, owner, i, inodes[i]);
  }

  /** So a root directory that counts as longer makes for none. */
  lemma TooLarge(sb: Super, disk: Disk, inodes: Inodes, n: nat)
    requires ROOT in inodes && inodes[ROOT].size == Rounded(n) && n == MAXFILE * BSIZE
    ensures inodes[ROOT].size == (MAXFILE + 1) * BSIZE && forall o :: !Repr(sb, disk, inodes, o)
  {
    forall o ensures !Repr(sb, disk, inodes, o) {
      if Repr(sb, disk, inodes, o) {
        SizeOk(sb, disk, inodes, o, ROOT);
      }
    }
  }

  /** balloc's loop. */
  method BitBlock(used: nat) returns (buf: Bytes)
    requires used < BPB
    ensures BitsBelow(buf, used)
  {
    buf := Zeros();
    BitsBelowStart();
    for i := 0 to used
      invariant BitsBelow(buf, i)
    {
      BitsBelowNext(buf, i);
      FirstBlock(i);
      buf := PutByte(buf, i / 8, OrByte(buf[i / 8], i % 8));
    }
  }

  lemma AppendedStart(sb: Super, j: Write, n: nat)
    requires Made(sb, j.disk, j.inodes, j.owner, n) && AllTight(j.disk, j.inodes) && j.i in j.inodes
    requires j.off == j.inodes[j.i].size
    ensures Extended(sb, j, n, j.disk, j.inodes, j.owner, [], n)
  {
    assert j.inodes == j.inodes[j.i := j.inodes[j.i]];
  }

  lemma ExtendedTrans(sb: Super, j: Write, n0: nat, m: nat, disk1: Disk, inodes1: Inodes, owner1: Owners, p: Bytes,
                      k: nat, k': nat, disk: Disk, inodes: Inodes, owner: Owners, n: nat)
    requires k <= k' <= |p| && Extended(sb, j, n0, disk1, inodes1, owner1, p[..k], m) && j.off == j.inodes[j.i].size
    requires Extended(sb, Write(disk1, inodes1, owner1, j.i, inodes1[j.i].size), m, disk, inodes, owner, p[k..k'], n)
    ensures Extended(sb, j, n0, disk, inodes, owner, p[..k'], n)
  {
    AppendedTrans(sb, j, m, disk1, inodes1, owner1, p, k, k', disk, inodes, owner, n);
    AppendedSize(sb, j, disk1, inodes1, owner1, p[..k], m);
    GrownTrans(n0, j.off, m, inodes1[j.i].size, n, p, k, k');
  }

  lemma GrownTrans(n0: nat, s: nat, m: nat, t: nat, n: nat, p: Bytes, k: nat, k': nat)
    requires k <= k' <= |p| && Grown(n0, s, m, t) && t == s + |p[..k]| && Grown(m, t, n, t + |p[k..k']|)
    ensures Grown(n0, s, n, s + |p[..k']|)
  {
  }

  /** When the next bytes do not fit, all do not. */
  lemma ExtendedFull(sb: Super, j: Write, n0: nat, m: nat, disk1: Disk, inodes1: Inodes, owner1: Owners, p: Bytes,
                     k: nat, k': nat)
    requires k <= k' <= |p| && Extended(sb, j, n0, disk1, inodes1, owner1, p[..k], m) && j.off == j.inodes[j.i].size
    requires !Room(sb, m, inodes1[j.i].size, inodes1[j.i].size + |p[k..k']|)
    ensures !Room(sb, n0, j.off, j.off + |p|)
  {
    AppendedSize(sb, j, disk1, inodes1, owner1, p[..k], m);
    NoRoom(sb, n0, j.off, m, j.off + k, j.off + k', j.off + |p|);
  }

  lemma AppendedTrans(sb: Super, j: Write, m: nat, disk1: Disk, inodes1: Inodes, owner1: Owners, p: Bytes, k: nat,
                      k': nat, disk: Disk, inodes: Inodes, owner: Owners, n: nat)
    requires k <= k' <= |p| && Appended(sb, j, disk1, inodes1, owner1, p[..k], m)
    requires Appended(sb, Write(disk1, inodes1, owner1, j.i, inodes1[j.i].size), disk, inodes, owner, p[k..k'], n)
    ensures Appended(sb, j, disk, inodes, owner, p[..k'], n)
  {
    assert inodes == j.inodes[j.i := inodes[j.i]];
    LongerPrefix(p, k, k');
    Associate(Content(j.disk, j.inodes[j.i]), p[..k], p[k..k']);
  }

  lemma Associate(a: Bytes, b: Bytes, c: Bytes)
    ensures (a + b) + c == a + (b + c)
  {
  }

  // ----- the files made ----------------------------------------------------

  const DIRENT := 16

  function Concat(e: seq<Bytes>): Bytes {
    if e == [] then [] else Concat(e[..|e| - 1]) + e[|e| - 1]
  }

  lemma {:induction false} ConcatLength(e: seq<Bytes>)
    requires forall k :: 0 <= k < |e| ==> |e[k]| == DIRENT
    ensures |Concat(e)| == DIRENT * |e|
  {
    if e != [] {
      ConcatLength(e[..|e| - 1]);
    }
  }

  /** Thirty-two entries fill a block. */
  lemma EntriesFill(n: nat)
    ensures DIRENT * n % BSIZE != 0 <==> n % 32 != 0
  {
  }

  lemma ConcatMore(e: seq<Bytes>, x: Bytes)
    ensures Concat(e + [x]) == Concat(e) + x
  {
    assert (e + [x])[..|e + [x]| - 1] == e;
  }

  /** File i has the bytes c. */
  ghost predicate FileIs(disk: Disk, inodes: Inodes, i: nat, c: Bytes) {
    i in inodes && Content(disk, inodes[i]) == c
  }

  /** The root directory has the entries, the inodes after it the files; the rest is unused. */
  ghost predicate Files(disk: Disk, inodes: Inodes, entries: seq<Bytes>, files: seq<Bytes>, free: nat) {
    && FileIs(disk, inodes, ROOT, Concat(entries))
    && (forall k {:trigger files[k]} :: 0 <= k < |files| ==> FileIs(disk, inodes, 2 + k, files[k]))
    && (forall k :: k in inodes && k >= free ==> inodes[k] == Empty())
  }

  /** The blocks in use when the root directory has r bytes. */
  function Used(sb: Super, r: nat, files: seq<Bytes>): nat {
    Nmeta(sb) + BlocksOf(r) + Sum(files)
  }

  function Sum(files: seq<Bytes>): nat {
    if files == [] then 0 else Sum(files[..|files| - 1]) + BlocksOf(|files[|files| - 1]|)
  }

  /** The files are not too large, nor the disk too small. */
  predicate Enough(sb: Super, r: nat, files: seq<Bytes>) {
    && r <= MAXFILE * BSIZE && (forall k :: 0 <= k < |files| ==> |files[k]| <= MAXFILE * BSIZE)
    && Used(sb, r, files) <= sb.size
  }

  lemma SumMore(files: seq<Bytes>, p: Bytes)
    ensures Sum(files + [p]) == Sum(files) + BlocksOf(|p|)
  {
    assert (files + [p])[..|files + [p]| - 1] == files;
  }

  /** With less it is enough. */
  lemma {:induction false} EnoughLess(sb: Super, r: nat, r': nat, files: seq<Bytes>, k: nat)
    requires Enough(sb, r', files) && r <= r' && k <= |files|
    ensures Enough(sb, r, files[..k])
  {
    assert (r + BSIZE - 1) / BSIZE <= (r' + BSIZE - 1) / BSIZE;
    if k == |files| {
      assert files[..k] == files;
    } else {
      var f := files[..|files| - 1];
      assert f[..k] == files[..k];
      EnoughLess(sb, r, r', f, k);
    }
  }

  /** A longer list has more bytes. */
  lemma {:induction false} ConcatLonger(e: seq<Bytes>, k: nat)
    requires k <= |e|
    ensures |Concat(e[..k])| <= |Concat(e)|
  {
    if k == |e| {
      assert e[..k] == e;
    } else {
      assert e[..|e| - 1][..k] == e[..k];
      ConcatLonger(e[..|e| - 1], k);
    }
  }

  lemma NotEnough(sb: Super, e: seq<Bytes>, f: seq<Bytes>, a: nat, a': nat, b: nat, b': nat)
    requires a <= a' <= |e| && b <= b' <= |f| && !Enough(sb, |Concat(e[..a])|, f[..b])
    ensures !Enough(sb, |Concat(e[..a'])|, f[..b'])
  {
    ConcatLonger(e[..a'], a);
    assert e[..a'][..a] == e[..a] && f[..b'][..b] == f[..b];
    if Enough(sb, |Concat(e[..a'])|, f[..b']) {
      EnoughLess(sb, |Concat(e[..a])|, |Concat(e[..a'])|, f[..b'], b);
    }
  }

  lemma NotEnoughMore(sb: Super, r: nat, f: seq<Bytes>, p: Bytes)
    requires !Enough(sb, r, f)
    ensures !Enough(sb, r, f + [p])
  {
    assert (f + [p])[..|f|] == f;
    if Enough(sb, r, f + [p]) {
      EnoughLess(sb, r, r, f + [p], |f|);
    }
  }

  ghost predicate Ready(sb: Super, disk: Disk, inodes: Inodes, owner: Owners, n: nat, entries: seq<Bytes>,
                        files: seq<Bytes>, free: nat)
  {
    && Made(sb, disk, inodes, owner, n) && AllTight(disk, inodes) && Files(disk, inodes, entries, files, free)
    && n == Used(sb, |Concat(entries)|, files) && Enough(sb, |Concat(entries)|, files)
  }

  lemma FilesRoot(sb: Super, j: Write, disk: Disk, inodes: Inodes, owner: Owners, e: Bytes, n: nat,
                  entries: seq<Bytes>, files: seq<Bytes>, free: nat)
    requires Files(j.disk, j.inodes, entries, files, free) && j.i == ROOT && free > ROOT
    requires Appended(sb, j, disk, inodes, owner, e, n)
    ensures Files(disk, inodes, entries + [e], files, free)
  {
    ConcatMore(entries, e);
    forall k | 0 <= k < |files| ensures FileIs(disk, inodes, 2 + k, files[k]) {
      assert FileIs(j.disk, j.inodes, 2 + k, files[k]);
    }
  }

  lemma FilesNew(sb: Super, j: Write, disk: Disk, inodes: Inodes, owner: Owners, p: Bytes, n: nat,
                 entries: seq<Bytes>, files: seq<Bytes>, free: nat)
    requires Files(j.disk, j.inodes, entries, files, free) && j.i == 2 + |files| && free > j.i
    requires Appended(sb, j, disk, inodes, owner, p, n) && j.inodes[j.i] == Empty()
    ensures Files(disk, inodes, entries, files + [p], free)
  {
    assert Content(j.disk, Empty()) + p == p;
    forall k | 0 <= k < |files + [p]| ensures FileIs(disk, inodes, 2 + k, (files + [p])[k]) {
      if k < |files| {
        assert FileIs(j.disk, j.inodes, 2 + k, files[k]);
      }
    }
  }

  /** What one more entry in the root directory takes. */
  lemma RootEnough(sb: Super, disk: Disk, inodes: Inodes, owner: Owners, n: nat, es: seq<Bytes>, fs: seq<Bytes>,
                   free: nat, e: Bytes)
    requires Ready(sb, disk, inodes, owner, n, es, fs, free)
    ensures ROOT in inodes && inodes[ROOT].size == |Concat(es)|
    ensures Room(sb, n, inodes[ROOT].size, inodes[ROOT].size + |e|) <==> Enough(sb, |Concat(es + [e])|, fs)
  {
    ConcatMore(es, e);
    assert |Content(disk, inodes[ROOT])| == inodes[ROOT].size;
  }

  /** And one more file. */
  lemma FileEnough(sb: Super, n: nat, es: seq<Bytes>, fs: seq<Bytes>, p: Bytes)
    requires n == Used(sb, |Concat(es)|, fs) && Enough(sb, |Concat(es)|, fs)
    ensures Room(sb, n, 0, |p|) <==> Enough(sb, |Concat(es)|, fs + [p])
  {
    SumMore(fs, p);
    assert (fs + [p])[|fs|] == p;
  }

  lemma RootReady(sb: Super, j: Write, n0: nat, disk: Disk, inodes: Inodes, owner: Owners, e: Bytes, n: nat,
                  es: seq<Bytes>, fs: seq<Bytes>, free: nat)
    requires Ready(sb, j.disk, j.inodes, j.owner, n0, es, fs, free) && j.i == ROOT && free > ROOT && j.off == j.inodes[ROOT].size
    requires Extended(sb, j, n0, disk, inodes, owner, e, n)
    ensures Ready(sb, disk, inodes, owner, n, es + [e], fs, free)
    ensures inodes.Keys == j.inodes.Keys && forall x :: x in j.inodes && x != ROOT ==> inodes[x] == j.inodes[x]
  {
    FilesRoot(sb, j, disk, inodes, owner, e, n, es, fs, free);
    RootEnough(sb, j.disk, j.inodes, j.owner, n0, es, fs, free, e);
    ExtendedRoom(sb, j, n0, disk, inodes, owner, e, n);
    ConcatMore(es, e);
  }

  lemma FileReady(sb: Super, j: Write, n0: nat, disk: Disk, inodes: Inodes, owner: Owners, p: Bytes, n: nat,
                  es: seq<Bytes>, fs: seq<Bytes>, free: nat)
    requires Ready(sb, j.disk, j.inodes, j.owner, n0, es, fs, free) && j.i == 2 + |fs| && free > j.i && j.off == 0
    requires Extended(sb, j, n0, disk, inodes, owner, p, n) && j.inodes[j.i] == Empty()
    ensures Ready(sb, disk, inodes, owner, n, es, fs + [p], free)
  {
    FilesNew(sb, j, disk, inodes, owner, p, n, es, fs, free);
    FileEnough(sb, n0, es, fs, p);
    ExtendedRoom(sb, j, n0, disk, inodes, owner, p, n);
    SumMore(fs, p);
  }

  lemma FilesStay(disk: Disk, disk': Disk, inodes: Inodes, entries: seq<Bytes>, files: seq<Bytes>, free: nat)
    requires Files(disk, inodes, entries, files, free)
    requires forall k :: k in inodes ==> Content(disk', inodes[k]) == Content(disk, inodes[k])
    ensures Files(disk', inodes, entries, files, free + 1)
  {
    forall k | 0 <= k < |files| ensures FileIs(disk', inodes, 2 + k, files[k]) {
      assert FileIs(disk, inodes, 2 + k, files[k]);
    }
  }

  /** The files other than the root directory are as they were. */
  ghost predicate RestSame(disk: Disk, inodes: Inodes, disk': Disk, inodes': Inodes) {
    forall k :: k in inodes && k != ROOT ==>
      k in inodes' && Tight(disk', inodes'[k]) && Content(disk', inodes'[k]) == Content(disk, inodes[k])
  }

  /** The root directory has its rounded size, and begins as it was. */
  ghost predicate RootRounded(disk: Disk, inodes: Inodes, disk': Disk, inodes': Inodes) {
    && ROOT in inodes && RestSame(disk, inodes, disk', inodes')
    && inodes' == inodes[ROOT := inodes[ROOT].(size := Rounded(inodes[ROOT].size))]
    && Content(disk', inodes'[ROOT])[..inodes[ROOT].size] == Content(disk, inodes[ROOT])
  }

  /** The root directory starts with the entries, the inodes after it have the files, and no
      file has a hole. */
  ghost predicate Holding(disk: Disk, inodes: Inodes, entries: seq<Bytes>, files: seq<Bytes>) {
    && ROOT in inodes && |Concat(entries)| <= |Content(disk, inodes[ROOT])|
    && Content(disk, inodes[ROOT])[..|Concat(entries)|] == Concat(entries)
    && (forall k {:trigger files[k]} :: 0 <= k < |files| ==> FileIs(disk, inodes, 2 + k, files[k]))
    && (forall k :: k in inodes && k != ROOT ==> HoleFree(disk, inodes[k]))
  }

  /** What mkfs makes of the directory entries and the files it is given. */
  ghost predicate Formatted(sb: Super, disk: Disk, inodes: Inodes, owner: Owners, entries: seq<Bytes>,
                            files: seq<Bytes>)
  {
    && Layout(sb) && (forall i :: i in inodes <==> 0 <= i < Ninodes(sb))
    && Repr(sb, disk, inodes, owner) && TableIs(sb, disk, inodes) && Holding(disk, inodes, entries, files)
  }

  lemma SameHoles(disk: Disk, disk': Disk, ino: Inode)
    requires SameAddrs(disk, ino, disk', ino)
    ensures HoleFree(disk', ino) <==> HoleFree(disk, ino)
  {
  }

  lemma RootFiles(disk0: Disk, inodes: Inodes, disk: Disk, inodes': Inodes, entries: seq<Bytes>, files: seq<Bytes>, free: nat)
    requires Files(disk0, inodes, entries, files, free) && RootRounded(disk0, inodes, disk, inodes')
    ensures Holding(disk, inodes', entries, files)
  {
    forall k | 0 <= k < |files| ensures FileIs(disk, inodes', 2 + k, files[k]) {
      assert FileIs(disk0, inodes, 2 + k, files[k]);
    }
    assert |Content(disk0, inodes[ROOT])| == inodes[ROOT].size;
  }

  lemma FilesBitmap(sb: Super, disk1: Disk, inodes: Inodes, owner: Owners, disk: Disk, entries: seq<Bytes>, files: seq<Bytes>)
    requires Holding(disk1, inodes, entries, files) && Bitmapped(sb, disk1, disk, inodes, owner)
    ensures Holding(disk, inodes, entries, files) && (HoleFree(disk, inodes[ROOT]) <==> HoleFree(disk1, inodes[ROOT]))
  {
    forall k | 0 <= k < |files| ensures FileIs(disk, inodes, 2 + k, files[k]) {
      assert FileIs(disk1, inodes, 2 + k, files[k]);
    }
    forall k | k in inodes ensures HoleFree(disk, inodes[k]) <==> HoleFree(disk1, inodes[k]) {
      SameHoles(disk1, disk, inodes[k]);
    }
  }

  lemma FinishFiles(sb: Super, disk1: Disk, inodes: Inodes, owner: Owners, disk: Disk, entries: seq<Bytes>,
                    files: seq<Bytes>, ok: bool, n: nat)
    requires BitmapOnly(sb, disk1, disk, ok, n) && (ok ==> n < BPB)
    ensures ok && Made(sb, disk1, inodes, owner, n) && Holding(disk1, inodes, entries, files) ==>
              && Formatted(sb, disk, inodes, owner, entries, files)
              && (HoleFree(disk, inodes[ROOT]) <==> HoleFree(disk1, inodes[ROOT]))
  {
    if ok && Made(sb, disk1, inodes, owner, n) && Holding(disk1, inodes, entries, files) {
      BitmapMade(sb, disk1, inodes, owner, n, disk[sb.bmapstart]);
      FilesBitmap(sb, disk1, inodes, owner, disk, entries, files);
    }
  }
}
