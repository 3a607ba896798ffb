/**
 What operations on files log, against MAXOPBLOCKS (param.h, file.c, fs.c, sysfile.c): when a
 truncation stays within it, and disks on which a chunk of filewrite reaches it, passes it,
 and a truncation passes it.
 */
module Limits {
  import opened Common
  import opened Blocks
  import opened BlockMap
  import opened FileData
  import opened WriteCount
  import opened ChunkBound
  import opened FileSystem

  // ----- truncation --------------------------------------------------------

  /** itrunc stays within MAXOPBLOCKS if and only if the blocks of the file lie under at most
      nine bitmap blocks. */
  lemma TruncFitsIff(sb: Super, disk: Disk, inodes: Inodes, owner: Owners, i: nat)
    requires Repr(sb, disk, inodes, owner) && i in inodes
    ensures |TruncLogs(sb, owner, i)| <= MAXOPBLOCKS <==> |BitmapOf(sb, OwnedBy(owner, i))| <= MAXOPBLOCKS - 1
  {
    OwnedBelowSize(sb, disk, inodes, owner, i);
    BitmapMeta(sb, disk, owner, OwnedBy(owner, i));
    assert owner[IBlock(sb, i)] == Table;
    assert IBlock(sb, i) !in BitmapOf(sb, OwnedBy(owner, i));
  }

  lemma OwnedBelowSize(sb: Super, disk: Disk, inodes: Inodes, owner: Owners, i: nat)
    requires Repr(sb, disk, inodes, owner)
    ensures forall b :: b in OwnedBy(owner, i) ==> b < sb.size
  {
    forall b | b in OwnedBy(owner, i) ensures b < sb.size {
      assert OwnerOk(sb, disk, inodes, owner, b);
    }
  }

  lemma {:induction false} BetweenCount(a: set<nat>, lo: nat, n: nat)
    requires forall x :: x in a ==> lo <= x < lo + n
    ensures |a| <= n
    decreases n
  {
    if n == 0 {
      assert a == {};
    } else {
      BetweenCount(a - {lo + n - 1}, lo, n - 1);
      SubsetCount(a, (a - {lo + n - 1}) + {lo + n - 1});
    }
  }

  /** n bitmap blocks are all there are for n * BPB blocks. */
  lemma BitmapCount(sb: Super, e: set<nat>, n: nat)
    requires sb.size <= n * BPB && forall b :: b in e ==> b < sb.size
    ensures |BitmapOf(sb, e)| <= n
  {
    forall x | x in BitmapOf(sb, e) ensures sb.bmapstart <= x < sb.bmapstart + n {
      var b :| b in e && x == BBlock(sb, b);
    }
    BetweenCount(BitmapOf(sb, e), sb.bmapstart, n);
  }

  /** So it always does on a disk of at most nine bitmap blocks; mkfs makes one. */
  lemma TruncFits(sb: Super, disk: Disk, inodes: Inodes, owner: Owners, i: nat)
    requires Repr(sb, disk, inodes, owner) && i in inodes && sb.size <= 9 * BPB
    ensures |TruncLogs(sb, owner, i)| <= MAXOPBLOCKS
  {
    TruncFitsIff(sb, disk, inodes, owner, i);
    OwnedBelowSize(sb, disk, inodes, owner, i);
    BitmapCount(sb, OwnedBy(owner, i), 9);
  }

  /** sys_unlink clears an entry in block x of directory d, updates the inodes of d and i, and
      gives both up, which may truncate both. */
  lemma UnlinkFits(sb: Super, disk: Disk, inodes: Inodes, owner: Owners, d: nat, i: nat, x: nat)
    requires Repr(sb, disk, inodes, owner) && d in inodes && i in inodes && sb.size <= 7 * BPB
    ensures |{x, IBlock(sb, d), IBlock(sb, i)} + TruncLogs(sb, owner, d) + TruncLogs(sb, owner, i)| <= MAXOPBLOCKS
  {
    var a, b, e := {x, IBlock(sb, d), IBlock(sb, i)}, OwnedBy(owner, d), OwnedBy(owner, i);
    OwnedBelowSize(sb, disk, inodes, owner, d);
    OwnedBelowSize(sb, disk, inodes, owner, i);
    BitmapCount(sb, b + e, 7);
    assert BitmapOf(sb, b + e) == BitmapOf(sb, b) + BitmapOf(sb, e);
    assert a + TruncLogs(sb, owner, d) + TruncLogs(sb, owner, i) == a + BitmapOf(sb, b + e);
  }

  // ----- sets of blocks ----------------------------------------------------

  ghost function Elements(f: seq<nat>): set<nat> {
    set x | x in f
  }

  lemma {:induction false} ElementsCount(sb: Super, f: seq<nat>)
    requires forall x, y :: 0 <= x < y < |f| ==> f[x] != f[y] && BBlock(sb, f[x]) != BBlock(sb, f[y])
    ensures |Elements(f)| == |f| && |BitmapOf(sb, Elements(f))| == |f|
  {
    if f == [] {
      assert Elements(f) == {} && BitmapOf(sb, Elements(f)) == {};
    } else {
      var g, b := f[..|f| - 1], f[|f| - 1];
      ElementsCount(sb, g);
      assert f == g + [b];
      assert Elements(f) == Elements(g) + {b} && b !in Elements(g);
      assert BitmapOf(sb, Elements(f)) == BitmapOf(sb, Elements(g)) + {BBlock(sb, b)};
      assert BBlock(sb, b) !in BitmapOf(sb, Elements(g));
    }
  }

  // ----- a chunk -----------------------------------------------------------

  /** A disk with five bitmap blocks, under each of which only the last block is free.  The
      first covers the metadata and file 1, each of the others 455 files of nine blocks. */
  function SpreadSuper(hole: bool): Super {
    Super(5 * BPB, if hole then 4078 else 4077, 32)
  }

  /** A file of eleven blocks and one byte, with its last block or without. */
  function SpreadInode(hole: bool): Inode {
    var n := Nmeta(SpreadSuper(hole));
    Inode(11 * BSIZE + 1, seq<nat>(NDIRECT + 1, (k: nat) => if k < 11 || (k == 11 && !hole) then n + k else 0))
  }

  /** The block where file i >= 2 begins. */
  function FullStart(i: nat): nat
    requires i >= 2
  {
    ((i - 2) / 455 + 1) * BPB + (i - 2) % 455 * 9
  }

  function FullInode(i: nat): Inode
    requires i >= 2
  {
    var n := FullStart(i);
    Inode(9 * BSIZE, seq<nat>(NDIRECT + 1, (k: nat) => if k < 9 then n + k else 0))
  }

  function SpreadFile(hole: bool, i: nat): Inode {
    if i >= 2 then FullInode(i) else SpreadInode(hole)
  }

  ghost function SpreadInodes(hole: bool): Inodes {
    map i: nat | 1 <= i < 2 + 4 * 455 :: SpreadFile(hole, i)
  }

  function SpreadUse(hole: bool, b: nat): Owner {
    var sb := SpreadSuper(hole);
    if b < Nmeta(sb) then MetaOwner(sb, b)
    else if b < BPB then Data(1, b - Nmeta(sb))
    else Data(2 + (b / BPB - 1) * 455 + b % BPB / 9, b % BPB % 9)
  }

  ghost function SpreadOwner(hole: bool): Owners {
    map b: nat | b < 5 * BPB && b % BPB != BPB - 1 :: SpreadUse(hole, b)
  }

  /** A bitmap block with all bits set but the last. */
  function FullByte(i: nat): Byte {
    if i == BSIZE - 1 then 0x7f else 0xff
  }

  function FullBlock(): Bytes {
    seq(BSIZE, (i: nat) => FullByte(i))
  }

  function SpreadBlock(hole: bool, b: nat): Bytes {
    if 0 <= b - SpreadSuper(hole).bmapstart < 5 then FullBlock() else Zeros()
  }

  function SpreadDisk(hole: bool): Disk {
    map b: nat | b < 5 * BPB :: SpreadBlock(hole, b)
  }

  lemma FullBits(b: nat)
    ensures |FullBlock()| == BSIZE
    ensures Bit(FullBlock()[ByteOf(b)], BitOf(b)) <==> b % BPB != BPB - 1
  {
    assert Pow2(4) == 16 && Pow2(7) == 0x80 && Pow2(8) == 0x100;
    LowBits(7, BitOf(b));
    LowBits(8, BitOf(b));
  }

  lemma SpreadInUse(hole: bool, b: nat)
    requires b < 5 * BPB
    ensures InUse(SpreadSuper(hole), SpreadDisk(hole), b) <==> b % BPB != BPB - 1
  {
    FullBits(b);
    assert SpreadDisk(hole)[BBlock(SpreadSuper(hole), b)] == FullBlock();
  }

  lemma SpreadBits(hole: bool)
    ensures BitsOk(SpreadSuper(hole), SpreadDisk(hole), SpreadOwner(hole)) && DiskOk(SpreadSuper(hole), SpreadDisk(hole))
  {
    var sb, disk, owner := SpreadSuper(hole), SpreadDisk(hole), SpreadOwner(hole);
    forall b | 0 <= b < sb.size ensures BitOk(sb, disk, owner, b) {
      SpreadInUse(hole, b);
      assert BBlock(sb, b) < Nmeta(sb);
    }
  }

  /** Block r under bitmap block g is block r % 9 of its file. */
  lemma FullAt(g: nat, r: nat)
    requires 1 <= g < 5 && r < 9 * 455
    ensures
      var i := 2 + (g - 1) * 455 + r / 9;
      2 <= i < 2 + 4 * 455 && FullStart(i) + r % 9 == g * BPB + r
  {
    var q := r / 9;
    assert ((g - 1) * 455 + q) / 455 == g - 1 && ((g - 1) * 455 + q) % 455 == q;
  }

  lemma FullUse(hole: bool, i: nat, k: nat)
    requires 2 <= i < 2 + 4 * 455 && k < 9
    ensures
      var b := FullStart(i) + k;
      b in SpreadOwner(hole) && SpreadOwner(hole)[b] == Data(i, k)
  {
    var g, q := (i - 2) / 455 + 1, (i - 2) % 455;
    var r := 9 * q + k;
    assert r < BPB - 1 && r / 9 == q && r % 9 == k;
    assert (g * BPB + r) / BPB == g && (g * BPB + r) % BPB == r;
  }

  lemma SpreadFileOk(hole: bool, i: nat)
    requires 1 <= i < 2 + 4 * 455
    ensures FileOk(SpreadDisk(hole), SpreadOwner(hole), i, SpreadFile(hole, i))
  {
    var disk, owner, ino := SpreadDisk(hole), SpreadOwner(hole), SpreadFile(hole, i);
    forall bn | 0 <= bn < MAXFILE ensures BlockOk(disk, owner, i, ino, bn) {
      if i >= 2 && bn < 9 {
        FullUse(hole, i, bn);
      }
    }
  }

  lemma SpreadOwnerOk(hole: bool, b: nat)
    requires b in SpreadOwner(hole)
    ensures OwnerOk(SpreadSuper(hole), SpreadDisk(hole), SpreadInodes(hole), SpreadOwner(hole), b)
  {
    if b >= BPB {
      FullAt(b / BPB, b % BPB);
    }
  }

  lemma SpreadRepr(hole: bool)
    ensures Repr(SpreadSuper(hole), SpreadDisk(hole), SpreadInodes(hole), SpreadOwner(hole))
  {
    var sb, disk, inodes, owner := SpreadSuper(hole), SpreadDisk(hole), SpreadInodes(hole), SpreadOwner(hole);
    SpreadBits(hole);
    forall i | i in inodes ensures FileOk(disk, owner, i, inodes[i]) {
      SpreadFileOk(hole, i);
    }
    forall b | b in owner ensures OwnerOk(sb, disk, inodes, owner, b) {
      SpreadOwnerOk(hole, b);
    }
    forall b | 0 <= b < Nmeta(sb) ensures LaidOut(sb, owner, b) {
    }
  }

  lemma {:induction false} SpreadFree(hole: bool, n: nat)
    requires n <= 5 * BPB
    ensures FreeBelow(SpreadSuper(hole), SpreadDisk(hole), n) == n / BPB
  {
    if n > 0 {
      SpreadFree(hole, n - 1);
      SpreadInUse(hole, n - 1);
    }
  }

  function LastOnes(n: nat): seq<nat> {
    seq<nat>(n, (k: nat) => k * BPB + (BPB - 1))
  }

  lemma LastOnesIs(n: nat, b: nat)
    ensures b in Elements(LastOnes(n)) <==> b % BPB == BPB - 1 && b / BPB < n
  {
    if b % BPB == BPB - 1 && b / BPB < n {
      assert b == LastOnes(n)[b / BPB];
    }
  }

  lemma FirstIs(hole: bool, n: nat, b: nat)
    requires n <= 5
    ensures b in FirstFree(SpreadSuper(hole), SpreadDisk(hole), n) <==> b % BPB == BPB - 1 && b / BPB < n
  {
    if b < 5 * BPB {
      SpreadInUse(hole, b);
      SpreadFree(hole, b);
    }
  }

  lemma SpreadFirst(hole: bool, n: nat)
    requires n <= 5
    ensures |BitmapOf(SpreadSuper(hole), FirstFree(SpreadSuper(hole), SpreadDisk(hole), n))| == n
  {
    var sb, disk, f := SpreadSuper(hole), SpreadDisk(hole), LastOnes(n);
    forall b: nat ensures b in FirstFree(sb, disk, n) <==> b in Elements(f) {
      LastOnesIs(n, b);
      FirstIs(hole, n, b);
    }
    assert FirstFree(sb, disk, n) == Elements(f);
    ElementsCount(sb, f);
  }

  lemma SpreadNeed(hole: bool, lo: nat)
    requires lo == 11
    ensures Need(SpreadDisk(hole), SpreadInode(hole), lo, lo + 4) == if hole then 5 else 4
    ensures Through(SpreadDisk(hole), SpreadInode(hole), lo, lo + 4)
  {
    var disk, ino := SpreadDisk(hole), SpreadInode(hole);
    assert Missing(disk, ino, lo, lo) == 0;
    assert Missing(disk, ino, lo, lo + 1) == if hole then 1 else 0;
    assert Missing(disk, ino, lo, lo + 2) == Missing(disk, ino, lo, lo + 1) + 1;
    assert Missing(disk, ino, lo, lo + 3) == Missing(disk, ino, lo, lo + 2) + 1;
    assert Addr(disk, ino, lo + 1) == 0;
  }

  /** A chunk at the end of file 1 logs ten blocks; and eleven where it starts in a hole.  There
      are as many free blocks as it needs. */
  lemma SpreadLogs(hole: bool)
    ensures
      var sb, disk, ino, off := SpreadSuper(hole), SpreadDisk(hole), SpreadInode(hole), 11 * BSIZE + 1;
      && Repr(sb, disk, SpreadInodes(hole), SpreadOwner(hole)) && 1 in SpreadInodes(hole) && SpreadInodes(hole)[1] == ino
      && !Refused(ino.size, off, MAXCHUNK)
      && |SpreadOwner(hole)| + Need(disk, ino, off / BSIZE, Hi(off, MAXCHUNK)) <= sb.size
      && LogSize(sb, disk, ino, off, MAXCHUNK) == if hole then MAXOPBLOCKS + 1 else MAXOPBLOCKS
  {
    var sb, disk, ino := SpreadSuper(hole), SpreadDisk(hole), SpreadInode(hole);
    SpreadRepr(hole);
    FreePlusOwned(sb, disk, SpreadInodes(hole), SpreadOwner(hole));
    SpreadFree(hole, sb.size);
    var lo: nat :| lo == 11;
    SpreadNeed(hole, lo);
    SpreadFirst(hole, if hole then 5 else 4);
    var off: nat :| off == 11 * BSIZE + 1;
    assert off / BSIZE == lo && Hi(off, MAXCHUNK) == lo + 4;
  }

  /** So filewrite's chunk does. */
  method ReachBound(fs: Fs, ip: Cached, hole: bool, src: Bytes) returns (ghost inodes: Inodes, ghost owner: Owners)
    requires fs.sb == SpreadSuper(hole) && fs.disk == SpreadDisk(hole) && |src| == MAXCHUNK
    requires ip.inum == 1 && ip.Value() == SpreadInode(hole) && Fits(ip.Whole())
    modifies fs, ip`addrs, ip`size
    ensures
      var j := Write(SpreadDisk(hole), SpreadInodes(hole), SpreadOwner(hole), 1, 11 * BSIZE + 1);
      Wrote(SpreadSuper(hole), j, fs.disk, inodes, owner, src, {}, fs.logged)
    ensures |fs.logged| == if hole then MAXOPBLOCKS + 1 else MAXOPBLOCKS
  {
    SpreadLogs(hole);
    var ok, r;
    ok, r, inodes, owner := fs.WriteChunk(ip, src, 11 * BSIZE + 1, SpreadInodes(hole), SpreadOwner(hole));
  }

  // ----- a truncation ------------------------------------------------------

  /** Ten bitmap blocks, and a file with a block under each; all else but the metadata is
      free. */
  const WIDE := Super(10 * BPB, 3, 2)

  /** How many low bits are set in byte i of bitmap block g. */
  function WideBits(g: nat, i: nat): nat {
    if g == 0 && i == 0 then 8 else if g == 0 && i == 1 then 6 else if i == 2 then 1 else 0
  }

  function WideByte(g: nat, i: nat): Byte {
    if WideBits(g, i) == 8 then 0xff else if WideBits(g, i) == 6 then 0x3f else WideBits(g, i)
  }

  function WideBlock(b: nat): Bytes {
    if 3 <= b < 13 then seq(BSIZE, (i: nat) => WideByte(b - 3, i)) else Zeros()
  }

  function WideDisk(): Disk {
    map b: nat | b < 10 * BPB :: WideBlock(b)
  }

  function WideBlocks(): seq<nat> {
    seq<nat>(10, (k: nat) => k * BPB + 16)
  }

  function WideInode(): Inode {
    Inode(10 * BSIZE, WideBlocks() + [0, 0, 0])
  }

  function WideUse(b: nat): Owner {
    if b < Nmeta(WIDE) then MetaOwner(WIDE, b) else Data(1, b / BPB)
  }

  ghost function WideOwner(): Owners {
    map b: nat | b < 10 * BPB && (b < Nmeta(WIDE) || b % BPB == 16) :: WideUse(b)
  }

  lemma WideInUse(b: nat)
    requires b < 10 * BPB
    ensures InUse(WIDE, WideDisk(), b) <==> b < Nmeta(WIDE) || b % BPB == 16
  {
    var g, i := b / BPB, ByteOf(b);
    assert Pow2(1) == 2 && Pow2(4) == 16 && Pow2(6) == 0x40 && Pow2(8) == 0x100;
    LowBits(WideBits(g, i), BitOf(b));
    assert WideDisk()[BBlock(WIDE, b)][i] == WideByte(g, i) == Pow2(WideBits(g, i)) - 1;
  }

  lemma WideRepr()
    ensures Repr(WIDE, WideDisk(), map[1 := WideInode()], WideOwner()) && HoleFree(WideDisk(), WideInode())
  {
    var disk, inodes, owner := WideDisk(), map[1 := WideInode()], WideOwner();
    forall b | 0 <= b < WIDE.size ensures BitOk(WIDE, disk, owner, b) {
      WideInUse(b);
      assert BBlock(WIDE, b) < Nmeta(WIDE);
    }
    forall i | i in inodes ensures FileOk(disk, owner, i, inodes[i]) {
      forall bn | 0 <= bn < MAXFILE ensures BlockOk(disk, owner, i, inodes[i], bn) {
      }
    }
    forall b | b in owner ensures OwnerOk(WIDE, disk, inodes, owner, b) {
    }
    forall b | 0 <= b < Nmeta(WIDE) ensures LaidOut(WIDE, owner, b) {
    }
    assert IBlock(WIDE, 1) == 2;
  }

  /** Its truncation logs eleven blocks. */
  lemma TruncPasses()
    ensures Repr(WIDE, WideDisk(), map[1 := WideInode()], WideOwner())
    ensures |TruncLogs(WIDE, WideOwner(), 1)| == MAXOPBLOCKS + 1
  {
    WideRepr();
    var f := WideBlocks();
    forall b | b in OwnedBy(WideOwner(), 1) ensures b in Elements(f) {
      assert b == f[b / BPB];
    }
    assert OwnedBy(WideOwner(), 1) == Elements(f);
    ElementsCount(WIDE, f);
    BitmapMeta(WIDE, WideDisk(), WideOwner(), Elements(f));
    assert IBlock(WIDE, 1) == 2 && WideOwner()[2] == Table;
    assert 2 !in BitmapOf(WIDE, Elements(f));
  }
}
