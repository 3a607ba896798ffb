/**
 Blocks as bytes (fs.h, fs.c): bits and words, inodes in the blocks of the inode table, and
 the bitmap of blocks in use.
 */
module Blocks {
  import opened Common

  const BSIZE := 512
  const NDIRECT := 12
  const NINDIRECT := 128
  const MAXFILE := 140
  const BPB := 4096

  type Byte = x: nat | x < 0x100
  type Bytes = seq<Byte>
  type Disk = map<nat, Bytes>

  datatype Super = Super(size: nat, bmapstart: nat, inodestart: nat)

  /** The fields of an inode that its contents depend on. */
  datatype Inode = Inode(size: nat, addrs: seq<nat>)

  // ----- bits and words of a block ----------------------------------------

  function Pow2(k: nat): (r: nat)
    ensures r > 0
  {
    if k == 0 then 1 else 2 * Pow2(k - 1)
  }

  /** x & (1 << k) is not 0. */
  predicate Bit(x: nat, k: nat) {
    if k == 0 then x % 2 == 1 else Bit(x / 2, k - 1)
  }

  lemma HalfPlus(x: nat, p: nat)
    ensures (x + 2 * p) / 2 == x / 2 + p && (x + 2 * p) % 2 == x % 2
  {
  }

  lemma HalfMinus(x: nat, p: nat)
    requires p <= x / 2
    ensures 2 * p <= x && (x - 2 * p) / 2 == x / 2 - p && (x - 2 * p) % 2 == x % 2
  {
  }

  /** x | (1 << k), where the bit was clear. */
  lemma {:induction false} SetBit(x: nat, k: nat, j: nat)
    requires !Bit(x, k)
    ensures Bit(x + Pow2(k), j) <==> Bit(x, j) || j == k
    decreases k
  {
    if k == 0 {
      assert (x + 1) % 2 == 1 && (x + 1) / 2 == x / 2;
    } else {
      HalfPlus(x, Pow2(k - 1));
      if j > 0 {
        SetBit(x / 2, k - 1, j - 1);
      }
    }
  }

  /** x | (1 << k) */
  function OrBit(x: nat, k: nat): nat {
    if Bit(x, k) then x else x + Pow2(k)
  }

  lemma {:induction false} OrBound(x: nat, k: nat, n: nat)
    requires x < Pow2(n) && k < n
    ensures OrBit(x, k) < Pow2(n)
    decreases k
  {
    var p := Pow2(n - 1);
    if k > 0 {
      OrBound(x / 2, k - 1, n - 1);
      if !Bit(x, k) {
        DoubleBound(x, Pow2(k - 1), p);
      }
    } else {
      DoubleBound(x, 0, p);
    }
  }

  lemma DoubleBound(x: nat, q: nat, p: nat)
    requires x / 2 + q < p
    ensures x + 2 * q < 2 * p && (x % 2 == 0 ==> x + 2 * q + 1 < 2 * p)
  {
  }

  /** It is a byte if x is. */
  function OrByte(x: Byte, k: nat): Byte
    requires k < 8
  {
    assert Pow2(4) == 16 && Pow2(8) == 0x100;
    OrBound(x, k, 8);
    OrBit(x, k)
  }

  lemma {:induction false} BitBound(x: nat, k: nat)
    requires Bit(x, k)
    ensures Pow2(k) <= x
    decreases k
  {
    if k > 0 {
      BitBound(x / 2, k - 1);
      HalfMinus(x, Pow2(k - 1));
    }
  }

  /** x & ~(1 << k), where the bit was set. */
  lemma {:induction false} ClearBit(x: nat, k: nat, j: nat)
    requires Bit(x, k)
    ensures Pow2(k) <= x && (Bit(x - Pow2(k), j) <==> Bit(x, j) && j != k)
    decreases k
  {
    BitBound(x, k);
    if k == 0 {
      assert (x - 1) % 2 == 0 && (x - 1) / 2 == x / 2;
    } else {
      BitBound(x / 2, k - 1);
      HalfMinus(x, Pow2(k - 1));
      if j > 0 {
        ClearBit(x / 2, k - 1, j - 1);
      }
    }
  }

  /** The low n bits. */
  lemma {:induction false} LowBits(n: nat, k: nat)
    ensures Bit(Pow2(n) - 1, k) <==> k < n
    decreases n
  {
    if n == 0 {
      NoBits(k);
    } else {
      LowBits(n - 1, if k == 0 then 0 else k - 1);
      assert (Pow2(n) - 1) / 2 == Pow2(n - 1) - 1 && (Pow2(n) - 1) % 2 == 1;
    }
  }

  lemma {:induction false} NoBits(k: nat)
    ensures !Bit(0, k)
    decreases k
  {
    if k > 0 {
      NoBits(k - 1);
    }
  }

  /** The little-endian 32-bit word number j of a block. */
  function Word(a: Bytes, j: nat): (r: nat)
    requires |a| == BSIZE && j < NINDIRECT
    ensures r < WORD
  {
    var b0: nat, b1: nat, b2: nat, b3: nat := a[4 * j], a[4 * j + 1], a[4 * j + 2], a[4 * j + 3];
    b0 + 0x100 * b1 + 0x1_0000 * b2 + 0x100_0000 * b3
  }

  function PutWord(a: Bytes, j: nat, x: nat): (r: Bytes)
    requires |a| == BSIZE && j < NINDIRECT && x < WORD
    ensures |r| == BSIZE
  {
    var y := x / 0x100;
    var z := y / 0x100;
    a[4 * j := x % 0x100][4 * j + 1 := y % 0x100][4 * j + 2 := z % 0x100][4 * j + 3 := z / 0x100]
  }

  lemma WordPut(a: Bytes, j: nat, x: nat, k: nat)
    requires |a| == BSIZE && j < NINDIRECT && k < NINDIRECT && x < WORD
    ensures Word(PutWord(a, j, x), k) == if k == j then x else Word(a, k)
  {
    var r := PutWord(a, j, x);
    if k == j {
      var y := x / 0x100;
      var z := y / 0x100;
      assert r[4 * j] == x % 0x100 && r[4 * j + 1] == y % 0x100 && r[4 * j + 2] == z % 0x100 && r[4 * j + 3] == z / 0x100;
    } else {
      assert forall n :: 4 * k <= n < 4 * k + 4 ==> r[n] == a[n];
    }
  }

  function Zeros(): (r: Bytes)
    ensures |r| == BSIZE && forall i :: 0 <= i < BSIZE ==> r[i] == 0
  {
    seq(BSIZE, _ => 0)
  }

  // ----- inodes on disk ---------------------------------------------------

  const IPB := 8
  const IWORDS := 16
  const SHORT := 0x1_0000

  /** struct dinode.  The shorts are as unsigned. */
  datatype Dinode = Dinode(kind: nat, major: nat, minor: nat, nlink: nat, ino: Inode)

  predicate Fits(d: Dinode) {
    && d.kind < SHORT && d.major < SHORT && d.minor < SHORT && d.nlink < SHORT && |d.ino.addrs| == NDIRECT + 1
    && d.ino.size < WORD && forall k :: 0 <= k <= NDIRECT ==> d.ino.addrs[k] < WORD
  }

  /** IBLOCK */
  function IBlock(sb: Super, inum: nat): nat {
    inum / IPB + sb.inodestart
  }

  /** The first word of an inode in its block. */
  function Slot(inum: nat): (r: nat)
    ensures r + IWORDS <= NINDIRECT
  {
    inum % IPB * IWORDS
  }

  lemma SlotsApart(sb: Super, i: nat, j: nat)
    requires i != j && IBlock(sb, i) == IBlock(sb, j)
    ensures Slot(i) + IWORDS <= Slot(j) || Slot(j) + IWORDS <= Slot(i)
  {
  }

  function GetDinode(a: Bytes, w: nat): Dinode
    requires |a| == BSIZE && w + IWORDS <= NINDIRECT
  {
    Dinode(Word(a, w) % SHORT, Word(a, w) / SHORT, Word(a, w + 1) % SHORT, Word(a, w + 1) / SHORT,
           Inode(Word(a, w + 2), seq<nat>(NDIRECT + 1, (k: nat) requires k < NDIRECT + 1 => Word(a, w + 3 + k))))
  }

  /** Two inodes are the same if their words are. */
  lemma SameDinode(a: Bytes, b: Bytes, w: nat)
    requires |a| == |b| == BSIZE && w + IWORDS <= NINDIRECT
    requires forall k :: w <= k < w + IWORDS ==> Word(a, k) == Word(b, k)
    ensures GetDinode(a, w) == GetDinode(b, w)
  {
    assert GetDinode(a, w).ino.addrs == GetDinode(b, w).ino.addrs;
  }

  /** The words of an inode are in place, the others are as they were. */
  ghost predicate Placed(a: Bytes, w: nat, d: Dinode, n: nat, b: Bytes)
    requires |a| == |b| == BSIZE && w + IWORDS <= NINDIRECT && |d.ino.addrs| == NDIRECT + 1
  {
    && (n > 0 ==> Word(b, w) == d.kind + SHORT * d.major)
    && (n > 1 ==> Word(b, w + 1) == d.minor + SHORT * d.nlink)
    && (n > 2 ==> Word(b, w + 2) == d.ino.size)
    && (forall k :: 0 <= k <= NDIRECT && k + 3 < n ==> Word(b, w + 3 + k) == d.ino.addrs[k])
    && (forall k :: 0 <= k < NINDIRECT && !(w <= k < w + IWORDS) ==> Word(b, k) == Word(a, k))
  }

  /** One word more. */
  lemma PlacedNext(a: Bytes, w: nat, d: Dinode, n: nat, b: Bytes, x: nat)
    requires |a| == |b| == BSIZE && w + IWORDS <= NINDIRECT && |d.ino.addrs| == NDIRECT + 1
    requires Placed(a, w, d, n, b) && n < IWORDS && x < WORD
    requires x == (if n == 0 then d.kind + SHORT * d.major
                   else if n == 1 then d.minor + SHORT * d.nlink
                   else if n == 2 then d.ino.size else d.ino.addrs[n - 3])
    ensures Placed(a, w, d, n + 1, PutWord(b, w + n, x))
  {
    forall k | 0 <= k < NINDIRECT ensures Word(PutWord(b, w + n, x), k) == if k == w + n then x else Word(b, k) {
      WordPut(b, w + n, x, k);
    }
  }

  lemma PlacedIs(a: Bytes, w: nat, d: Dinode, b: Bytes)
    requires |a| == |b| == BSIZE && w + IWORDS <= NINDIRECT && Fits(d) && Placed(a, w, d, IWORDS, b)
    ensures GetDinode(b, w) == d
  {
    Halves(d.kind, d.major);
    Halves(d.minor, d.nlink);
    assert GetDinode(b, w).ino.addrs == d.ino.addrs;
  }

  lemma Halves(x: nat, y: nat)
    requires x < SHORT
    ensures (x + SHORT * y) % SHORT == x && (x + SHORT * y) / SHORT == y
  {
  }

  /** The inode on disk, if there is a disk. */
  function OnDisk(sb: Super, disk: Disk, inum: nat): Dinode {
    var m := IBlock(sb, inum);
    if m in disk && |disk[m]| == BSIZE then GetDinode(disk[m], Slot(inum)) else Dinode(0, 0, 0, 0, Inode(0, []))
  }

  /** Inode inum is d on disk, the seven others of its block and all other blocks are as they
      were. */
  ghost predicate Updated(sb: Super, disk: Disk, disk': Disk, inum: nat, d: Dinode) {
    var m := IBlock(sb, inum);
    && m in disk' && |disk'[m]| == BSIZE && disk' == disk[m := disk'[m]]
    && OnDisk(sb, disk', inum) == d
    && (forall k: nat :: k != inum ==> OnDisk(sb, disk', k) == OnDisk(sb, disk, k))
  }

  lemma UpdatedIs(sb: Super, disk: Disk, inum: nat, d: Dinode, b: Bytes)
    requires IBlock(sb, inum) in disk && |disk[IBlock(sb, inum)]| == |b| == BSIZE && GetDinode(b, Slot(inum)) == d
    requires forall k :: 0 <= k < NINDIRECT && !(Slot(inum) <= k < Slot(inum) + IWORDS) ==>
               Word(b, k) == Word(disk[IBlock(sb, inum)], k)
    ensures Updated(sb, disk, disk[IBlock(sb, inum) := b], inum, d)
  {
    var disk' := disk[IBlock(sb, inum) := b];
    forall k: nat | k != inum ensures OnDisk(sb, disk', k) == OnDisk(sb, disk, k) {
      if IBlock(sb, k) == IBlock(sb, inum) {
        SlotsApart(sb, k, inum);
        SameDinode(disk[IBlock(sb, inum)], b, Slot(k));
      }
    }
  }

  /** iupdate: the fields of d stored one after the other. */
  method StoreDinode(a: Bytes, w: nat, d: Dinode) returns (b: Bytes)
    requires |a| == BSIZE && w + IWORDS <= NINDIRECT && Fits(d)
    ensures |b| == BSIZE && GetDinode(b, w) == d
    ensures forall k :: 0 <= k < NINDIRECT && !(w <= k < w + IWORDS) ==> Word(b, k) == Word(a, k)
  {
    b := a;
    PlacedNext(a, w, d, 0, b, d.kind + SHORT * d.major);
    b := PutWord(b, w, d.kind + SHORT * d.major);
    PlacedNext(a, w, d, 1, b, d.minor + SHORT * d.nlink);
    b := PutWord(b, w + 1, d.minor + SHORT * d.nlink);
    PlacedNext(a, w, d, 2, b, d.ino.size);
    b := PutWord(b, w + 2, d.ino.size);
    b := StoreAddrs(a, w, d, b);
    PlacedIs(a, w, d, b);
  }

  method StoreAddrs(a: Bytes, w: nat, d: Dinode, b0: Bytes) returns (b: Bytes)
    requires |a| == |b0| == BSIZE && w + IWORDS <= NINDIRECT && Fits(d) && Placed(a, w, d, 3, b0)
    ensures |b| == BSIZE && Placed(a, w, d, IWORDS, b)
  {
    b := b0;
    var k := 0;
    while k <= NDIRECT
      invariant 0 <= k <= NDIRECT + 1 && |b| == BSIZE && Placed(a, w, d, k + 3, b)
    {
      PlacedNext(a, w, d, k + 3, b, d.ino.addrs[k]);
      b := PutWord(b, w + 3 + k, d.ino.addrs[k]);
      k := k + 1;
    }
  }

  // ----- the bitmap -------------------------------------------------------

  /** BBLOCK */
  function BBlock(sb: Super, b: nat): nat {
    b / BPB + sb.bmapstart
  }

  function ByteOf(b: nat): (r: nat)
    ensures r < BSIZE
  {
    b % BPB / 8
  }

  function BitOf(b: nat): (r: nat)
    ensures r < 8
  {
    b % BPB % 8
  }

  lemma BitPlace(sb: Super, b: nat, c: nat)
    requires BBlock(sb, b) == BBlock(sb, c) && ByteOf(b) == ByteOf(c) && BitOf(b) == BitOf(c)
    ensures b == c
  {
  }

  predicate InUse(sb: Super, disk: Disk, b: nat) {
    var m := BBlock(sb, b);
    m in disk && |disk[m]| == BSIZE && Bit(disk[m][ByteOf(b)], BitOf(b))
  }

  function PutByte(a: Bytes, i: nat, x: Byte): (r: Bytes)
    requires i < |a|
    ensures |r| == |a|
  {
    a[i := x]
  }

  function MarkByte(sb: Super, disk: Disk, b: nat, x: Byte): Disk
    requires BBlock(sb, b) in disk && |disk[BBlock(sb, b)]| == BSIZE
  {
    disk[BBlock(sb, b) := PutByte(disk[BBlock(sb, b)], ByteOf(b), x)]
  }

  function Marked(sb: Super, disk: Disk, b: nat): Disk
    requires BBlock(sb, b) in disk && |disk[BBlock(sb, b)]| == BSIZE
  {
    MarkByte(sb, disk, b, OrByte(disk[BBlock(sb, b)][ByteOf(b)], BitOf(b)))
  }

  lemma MarkedBits(sb: Super, disk: Disk, b: nat, c: nat)
    requires BBlock(sb, b) in disk && |disk[BBlock(sb, b)]| == BSIZE && !InUse(sb, disk, b)
    ensures InUse(sb, Marked(sb, disk, b), c) <==> InUse(sb, disk, c) || c == b
  {
    SetBit(disk[BBlock(sb, b)][ByteOf(b)], BitOf(b), BitOf(c));
    if BBlock(sb, b) == BBlock(sb, c) && ByteOf(b) == ByteOf(c) && BitOf(b) == BitOf(c) {
      BitPlace(sb, b, c);
    }
  }

  function Cleared(sb: Super, disk: Disk, b: nat): Disk
    requires InUse(sb, disk, b)
  {
    ClearBit(disk[BBlock(sb, b)][ByteOf(b)], BitOf(b), 0);
    MarkByte(sb, disk, b, disk[BBlock(sb, b)][ByteOf(b)] - Pow2(BitOf(b)))
  }

  lemma ClearedBits(sb: Super, disk: Disk, b: nat, c: nat)
    requires InUse(sb, disk, b)
    ensures InUse(sb, Cleared(sb, disk, b), c) <==> InUse(sb, disk, c) && c != b
  {
    ClearBit(disk[BBlock(sb, b)][ByteOf(b)], BitOf(b), BitOf(c));
    if BBlock(sb, b) == BBlock(sb, c) && ByteOf(b) == ByteOf(c) && BitOf(b) == BitOf(c) {
      BitPlace(sb, b, c);
    }
  }

  // ----- prefixes ----------------------------------------------------------

  lemma WholePrefix<T>(s: seq<T>)
    ensures s[..0] == [] && s[..|s|] == s
  {
  }

  lemma NextPrefix<T>(s: seq<T>, i: nat)
    requires i < |s|
    ensures s[..i] + [s[i]] == s[..i + 1]
  {
  }

  lemma LongerPrefix<T>(s: seq<T>, i: nat, j: nat)
    requires i <= j <= |s|
    ensures s[..i] + s[i..j] == s[..j]
  {
  }
}
