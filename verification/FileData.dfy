/**
 Files as byte sequences (fs.c): what readi and writei do to them, block by block, which
 blocks they need and which a write logs.
 */
module FileData {
  import opened Common
  import opened Blocks
  import opened BlockMap

  // ----- files as byte sequences ------------------------------------------

  /** A hole reads as zeros. */
  function ByteAt(disk: Disk, ino: Inode, o: nat): Byte {
    if |ino.addrs| == NDIRECT + 1 && o / BSIZE < MAXFILE then
      var a := Addr(disk, ino, o / BSIZE);
      if a != 0 && a in disk && |disk[a]| == BSIZE then disk[a][o % BSIZE] else 0
    else 0
  }

  function Content(disk: Disk, ino: Inode): Bytes {
    seq(ino.size, (o: nat) => ByteAt(disk, ino, o))
  }

  function Spliced(s: Bytes, off: nat, c: Bytes): Bytes
    requires off <= |s|
  {
    s[..off] + c + if off + |c| < |s| then s[off + |c|..] else []
  }

  lemma SplicedTwice(s: Bytes, off: nat, c: Bytes, d: Bytes)
    requires off <= |s|
    ensures Spliced(Spliced(s, off, c), off + |c|, d) == Spliced(s, off, c + d)
  {
  }

  /** A file whose blocks stay, and whose new blocks are zero, keeps its contents. */
  lemma ContentKept(disk: Disk, owner: Owners, i: nat, ino: Inode, disk': Disk, ino': Inode)
    requires FileOk(disk, owner, i, ino) && |ino'.addrs| == NDIRECT + 1 && ino'.size == ino.size
    requires forall k :: 0 <= k < MAXFILE ==>
               if Addr(disk, ino, k) != 0 then Addr(disk', ino', k) == Addr(disk, ino, k)
               else Addr(disk', ino', k) != 0 && Addr(disk', ino', k) in disk' ==> disk'[Addr(disk', ino', k)] == Zeros()
    requires forall c :: c in owner && owner[c].Data? && owner[c].i == i ==> c in disk && c in disk' && disk'[c] == disk[c]
    ensures Content(disk', ino') == Content(disk, ino)
  {
    forall o | 0 <= o < ino.size ensures ByteAt(disk', ino', o) == ByteAt(disk, ino, o) {
      assert o / BSIZE * BSIZE <= o && o / BSIZE < MAXFILE;
      assert BlockOk(disk, owner, i, ino, o / BSIZE);
    }
  }

  /** Every other file keeps its contents when only blocks that are not its own change. */
  lemma OtherContentKept(sb: Super, disk: Disk, inodes: Inodes, owner: Owners, disk': Disk, owner': Owners, i: nat,
                         j: nat)
    requires Owned(sb, disk, inodes, owner) && j in inodes && j != i
    requires forall c :: c in owner && IsNot(owner[c], i) && c in disk ==> c in disk' && disk'[c] == disk[c]
    ensures SameAddrs(disk, inodes[j], disk', inodes[j]) && Content(disk', inodes[j]) == Content(disk, inodes[j])
  {
    assert FileOk(disk, owner, j, inodes[j]);
    forall c | c in owner ensures c in disk {
      assert OwnerOk(sb, disk, inodes, owner, c);
    }
    forall k | 0 <= k < MAXFILE ensures Addr(disk', inodes[j], k) == Addr(disk, inodes[j], k) {
      assert BlockOk(disk, owner, j, inodes[j], k);
    }
    ContentKept(disk, owner, j, inodes[j], disk', inodes[j]);
  }

  /** One block's worth of a file. */
  lemma ChunkIs(disk: Disk, ino: Inode, off: nat, m: nat, a: nat)
    requires |ino.addrs| == NDIRECT + 1 && off + m <= ino.size <= MAXFILE * BSIZE && m <= BSIZE - off % BSIZE
    requires m > 0 && a == Addr(disk, ino, off / BSIZE) != 0 && a in disk && |disk[a]| == BSIZE
    ensures Content(disk, ino)[off..off + m] == disk[a][off % BSIZE..off % BSIZE + m]
  {
    forall o | off <= o < off + m ensures ByteAt(disk, ino, o) == disk[a][off % BSIZE + (o - off)] {
      assert o / BSIZE == off / BSIZE && o % BSIZE == off % BSIZE + (o - off);
    }
  }

  function Most(a: nat, b: nat): nat {
    if a < b then b else a
  }

  /** Bytes c into a block, from byte x on. */
  function PutBytes(a: Bytes, x: nat, c: Bytes): (r: Bytes)
    requires x + |c| <= |a|
    ensures |r| == |a|
  {
    a[..x] + c + a[x + |c|..]
  }

  /** Writing into block a of file i, at offset off of the file. */
  lemma WriteContent(disk: Disk, owner: Owners, i: nat, ino: Inode, off: nat, c: Bytes, a: nat)
    requires FileOk(disk, owner, i, ino) && off <= ino.size && |c| > 0 && off % BSIZE + |c| <= BSIZE && off / BSIZE < MAXFILE
    requires a == Addr(disk, ino, off / BSIZE) != 0 && a in disk && |disk[a]| == BSIZE
    ensures
      var disk' := disk[a := PutBytes(disk[a], off % BSIZE, c)];
      var ino' := ino.(size := Most(ino.size, off + |c|));
      Content(disk', ino') == Spliced(Content(disk, ino), off, c)
  {
    var disk' := disk[a := PutBytes(disk[a], off % BSIZE, c)];
    var ino' := ino.(size := Most(ino.size, off + |c|));
    var s := Spliced(Content(disk, ino), off, c);
    assert BlockOk(disk, owner, i, ino, off / BSIZE);
    forall k | 0 <= k < MAXFILE
      ensures Addr(disk', ino', k) == Addr(disk, ino, k) && (k != off / BSIZE ==> Addr(disk, ino, k) != a)
    {
      assert BlockOk(disk, owner, i, ino, k);
    }
    forall o | 0 <= o < ino'.size ensures ByteAt(disk', ino', o) == s[o] {
      WriteByte(disk, ino, off, c, a, disk', ino', o);
    }
  }

  lemma WriteByte(disk: Disk, ino: Inode, off: nat, c: Bytes, a: nat, disk': Disk, ino': Inode, o: nat)
    requires |ino.addrs| == |ino'.addrs| == NDIRECT + 1 && off <= ino.size && |c| > 0 && off % BSIZE + |c| <= BSIZE
    requires ino'.size == Most(ino.size, off + |c|) <= MAXFILE * BSIZE && o < ino'.size && off / BSIZE < MAXFILE
    requires a in disk && |disk[a]| == BSIZE && disk' == disk[a := PutBytes(disk[a], off % BSIZE, c)]
    requires a == Addr(disk, ino, off / BSIZE) != 0
    requires forall k :: 0 <= k < MAXFILE ==> Addr(disk', ino', k) == Addr(disk, ino, k) && (k != off / BSIZE ==>
          Addr(disk, ino, k) != a)
    ensures ByteAt(disk', ino', o) == Spliced(Content(disk, ino), off, c)[o]
  {
    if off <= o < off + |c| {
      assert o / BSIZE == off / BSIZE && o % BSIZE == off % BSIZE + (o - off);
    } else if o / BSIZE == off / BSIZE {
      assert o % BSIZE < off % BSIZE || o % BSIZE >= off % BSIZE + |c|;
    }
  }

  /** The block map stands, and file i may count as longer by what was written. */
  lemma WriteOwned(sb: Super, disk: Disk, inodes: Inodes, owner: Owners, i: nat, off: nat, n: nat, a: nat, x: Bytes)
    requires Owned(sb, disk, inodes, owner) && i in inodes && |inodes[i].addrs| == NDIRECT + 1 && |x| == BSIZE
    requires off <= inodes[i].size && off % BSIZE + n <= BSIZE && off / BSIZE < MAXFILE && n > 0
    requires a == Addr(disk, inodes[i], off / BSIZE) != 0
    ensures Owned(sb, disk[a := x], inodes[i := inodes[i].(size := Most(inodes[i].size, off + n))], owner)
    ensures a in disk && |disk[a]| == BSIZE && a in owner && owner[a] == Data(i, off / BSIZE)
    ensures FileOk(disk, owner, i, inodes[i])
  {
    var disk', ino := disk[a := x], inodes[i];
    var ino' := ino.(size := Most(ino.size, off + n));
    var inodes' := inodes[i := ino'];
    assert FileOk(disk, owner, i, ino);
    assert BlockOk(disk, owner, i, ino, off / BSIZE);
    assert OwnerOk(sb, disk, inodes, owner, a);
    forall j | j in inodes ensures FileOk(disk', owner, j, inodes'[j]) && SameAddrs(disk, inodes[j], disk', inodes'[j]) {
      assert FileOk(disk, owner, j, inodes[j]);
      forall k | 0 <= k < MAXFILE
        ensures BlockOk(disk', owner, j, inodes'[j], k) && Addr(disk', inodes'[j], k) == Addr(disk, inodes[j], k)
      {
        assert BlockOk(disk, owner, j, inodes[j], k);
      }
    }
    forall c | c in owner ensures OwnerOk(sb, disk', inodes', owner, c) {
      assert OwnerOk(sb, disk, inodes, owner, c);
    }
  }

  // ----- the blocks a write logs ------------------------------------------

  /** The blocks bmap logs: the bitmap block and the new block, and on the way through the
      indirect block that one, with its bitmap block if it is new. */
  ghost function BmapLogs(sb: Super, ino: Inode, bn: nat, was: nat, a: nat, ino': Inode): set<nat>
    requires |ino.addrs| == |ino'.addrs| == NDIRECT + 1
  {
    if was != 0 then {}
    else if bn < NDIRECT then {BBlock(sb, a), a}
    else
      var d := ino'.addrs[NDIRECT];
      {BBlock(sb, a), a, d} + if ino.addrs[NDIRECT] == 0 then {BBlock(sb, d)} else {}
  }

  /** The blocks logged for file blocks lo to hi: each block, and what bmap logged. */
  ghost function WriteLogs(sb: Super, disk: Disk, ino: Inode, disk': Disk, ino': Inode, lo: nat, hi: nat): set<nat>
    requires |ino.addrs| == |ino'.addrs| == NDIRECT + 1 && hi <= MAXFILE
    decreases hi
  {
    if hi <= lo then {}
    else
      var a := Addr(disk', ino', hi - 1);
      WriteLogs(sb, disk, ino, disk', ino', lo, hi - 1) + {a} +
      BmapLogs(sb, ino, hi - 1, Addr(disk, ino, hi - 1), a, ino')
  }

  lemma {:induction false} WriteLogsSame(
    sb: Super, disk: Disk, ino: Inode, disk1: Disk, ino1: Inode, disk2: Disk, ino2: Inode, lo: nat, hi: nat)
    requires |ino.addrs| == |ino1.addrs| == |ino2.addrs| == NDIRECT + 1 && hi <= MAXFILE
    requires forall k :: lo <= k < hi ==> Addr(disk2, ino2, k) == Addr(disk1, ino1, k) != 0
    requires ino1.addrs[NDIRECT] != 0 ==> ino2.addrs[NDIRECT] == ino1.addrs[NDIRECT]
    ensures WriteLogs(sb, disk, ino, disk2, ino2, lo, hi) == WriteLogs(sb, disk, ino, disk1, ino1, lo, hi)
    decreases hi
  {
    if lo < hi {
      WriteLogsSame(sb, disk, ino, disk1, ino1, disk2, ino2, lo, hi - 1);
    }
  }

  /** If the indirect block is new, its bitmap block has been logged. */
  lemma {:induction false} IndirectLogged(sb: Super, disk: Disk, ino: Inode, disk': Disk, ino': Inode, lo: nat,
                                          hi: nat, bn: nat)
    requires |ino.addrs| == |ino'.addrs| == NDIRECT + 1 && hi <= MAXFILE && lo <= bn < hi && NDIRECT <= bn
    requires ino.addrs[NDIRECT] == 0
    ensures BBlock(sb, ino'.addrs[NDIRECT]) in WriteLogs(sb, disk, ino, disk', ino', lo, hi)
    decreases hi
  {
    if bn < hi - 1 {
      IndirectLogged(sb, disk, ino, disk', ino', lo, hi - 1, bn);
    }
  }

  /** Data blocks, bitmap blocks of the new ones, the indirect block and its bitmap block. */
  ghost function DataLogs(disk': Disk, ino': Inode, lo: nat, hi: nat): set<nat>
    requires |ino'.addrs| == NDIRECT + 1 && hi <= MAXFILE
    decreases hi
  {
    if hi <= lo then {} else DataLogs(disk', ino', lo, hi - 1) + {Addr(disk', ino', hi - 1)}
  }

  ghost function BitmapLogs(sb: Super, disk: Disk, ino: Inode, disk': Disk, ino': Inode, lo: nat, hi: nat): set<nat>
    requires |ino.addrs| == |ino'.addrs| == NDIRECT + 1 && hi <= MAXFILE
    decreases hi
  {
    if hi <= lo then {}
    else BitmapLogs(sb, disk, ino, disk', ino', lo, hi - 1) +
         if Addr(disk, ino, hi - 1) == 0 then {BBlock(sb, Addr(disk', ino', hi - 1))} else {}
  }

  lemma {:induction false} WriteLogsWithin(sb: Super, disk: Disk, ino: Inode, disk': Disk, ino': Inode, lo: nat,
                                           hi: nat)
    requires |ino.addrs| == |ino'.addrs| == NDIRECT + 1 && hi <= MAXFILE
    ensures WriteLogs(sb, disk, ino, disk', ino', lo, hi) <=
            DataLogs(disk', ino', lo, hi) + BitmapLogs(sb, disk, ino, disk', ino', lo, hi) +
            {ino'.addrs[NDIRECT], BBlock(sb, ino'.addrs[NDIRECT])}
    decreases hi
  {
    if lo < hi {
      WriteLogsWithin(sb, disk, ino, disk', ino', lo, hi - 1);
    }
  }

  lemma {:induction false} DataLogsCount(disk': Disk, ino': Inode, lo: nat, hi: nat)
    requires |ino'.addrs| == NDIRECT + 1 && lo <= hi <= MAXFILE
    ensures |DataLogs(disk', ino', lo, hi)| <= hi - lo
    decreases hi
  {
    if lo < hi {
      DataLogsCount(disk', ino', lo, hi - 1);
    }
  }

  /** One bitmap block less if the first file block was there. */
  lemma {:induction false} BitmapLogsCount(sb: Super, disk: Disk, ino: Inode, disk': Disk, ino': Inode, lo: nat,
                                           hi: nat)
    requires |ino.addrs| == |ino'.addrs| == NDIRECT + 1 && lo < hi <= MAXFILE
    ensures |BitmapLogs(sb, disk, ino, disk', ino', lo, hi)| <= hi - lo - if Addr(disk, ino, lo) != 0 then 1 else 0
    decreases hi
  {
    if lo < hi - 1 {
      BitmapLogsCount(sb, disk, ino, disk', ino', lo, hi - 1);
    } else {
      assert BitmapLogs(sb, disk, ino, disk', ino', lo, lo) == {};
    }
  }

  lemma WriteLogsCount(sb: Super, disk: Disk, ino: Inode, disk': Disk, ino': Inode, lo: nat, hi: nat)
    requires |ino.addrs| == |ino'.addrs| == NDIRECT + 1 && lo < hi <= MAXFILE
    ensures |WriteLogs(sb, disk, ino, disk', ino', lo, hi)| <=
            2 * (hi - lo) + 2 - if Addr(disk, ino, lo) != 0 then 1 else 0
  {
    var d, b := DataLogs(disk', ino', lo, hi), BitmapLogs(sb, disk, ino, disk', ino', lo, hi);
    var x := {ino'.addrs[NDIRECT], BBlock(sb, ino'.addrs[NDIRECT])};
    WriteLogsWithin(sb, disk, ino, disk', ino', lo, hi);
    DataLogsCount(disk', ino', lo, hi);
    BitmapLogsCount(sb, disk, ino, disk', ino', lo, hi);
    SubsetCount(WriteLogs(sb, disk, ino, disk', ino', lo, hi), d + b + x);
  }

  // ----- the blocks a write needs -----------------------------------------

  /** The blocks bmap takes for file block bn. */
  function New(disk: Disk, ino: Inode, bn: nat): nat
    requires |ino.addrs| == NDIRECT + 1 && bn < MAXFILE
  {
    if Addr(disk, ino, bn) != 0 then 0 else if bn >= NDIRECT && ino.addrs[NDIRECT] == 0 then 2 else 1
  }

  function Missing(disk: Disk, ino: Inode, lo: nat, hi: nat): nat
    requires |ino.addrs| == NDIRECT + 1 && hi <= MAXFILE
    decreases hi
  {
    if hi <= lo then 0 else Missing(disk, ino, lo, hi - 1) + if Addr(disk, ino, hi - 1) != 0 then 0 else 1
  }

  /** The block of addresses is missing and lies on the way. */
  predicate NeedsIndirect(ino: Inode, lo: nat, hi: nat)
    requires |ino.addrs| == NDIRECT + 1
  {
    lo < hi && hi > NDIRECT && ino.addrs[NDIRECT] == 0
  }

  /** The blocks that file blocks lo to hi take. */
  function Need(disk: Disk, ino: Inode, lo: nat, hi: nat): nat
    requires |ino.addrs| == NDIRECT + 1 && hi <= MAXFILE
  {
    Missing(disk, ino, lo, hi) + if NeedsIndirect(ino, lo, hi) then 1 else 0
  }

  lemma {:induction false} NeedBounds(disk: Disk, ino: Inode, lo: nat, hi: nat, hi': nat)
    requires |ino.addrs| == NDIRECT + 1 && lo <= hi <= hi' <= MAXFILE
    ensures Need(disk, ino, lo, hi) <= Need(disk, ino, lo, hi') <= 2 * (hi' - lo)
    ensures Missing(disk, ino, lo, hi) <= Missing(disk, ino, lo, hi') <= hi' - lo
    decreases hi'
  {
    if lo < hi' {
      NeedBounds(disk, ino, lo, if hi < hi' then hi else hi - 1, hi' - 1);
    }
  }

  /** None is missing. */
  lemma {:induction false} NeedNone(disk: Disk, ino: Inode, lo: nat, hi: nat)
    requires |ino.addrs| == NDIRECT + 1 && hi <= MAXFILE
    ensures Need(disk, ino, lo, hi) == 0 <==> forall k :: lo <= k < hi ==> Addr(disk, ino, k) != 0
    decreases hi
  {
    if lo < hi {
      NeedNone(disk, ino, lo, hi - 1);
    }
  }

  lemma {:induction false} MissingSplit(disk: Disk, ino: Inode, lo: nat, mid: nat, hi: nat)
    requires |ino.addrs| == NDIRECT + 1 && lo <= mid <= hi <= MAXFILE
    ensures Missing(disk, ino, lo, hi) == Missing(disk, ino, lo, mid) + Missing(disk, ino, mid, hi)
    decreases hi
  {
    if mid < hi {
      MissingSplit(disk, ino, lo, mid, hi - 1);
    }
  }

  lemma {:induction false} MissingSame(disk: Disk, ino: Inode, disk': Disk, ino': Inode, lo: nat, hi: nat)
    requires |ino.addrs| == |ino'.addrs| == NDIRECT + 1 && hi <= MAXFILE
    requires forall k :: lo <= k < hi ==> Addr(disk', ino', k) == Addr(disk, ino, k)
    ensures Missing(disk', ino', lo, hi) == Missing(disk, ino, lo, hi)
    decreases hi
  {
    if lo < hi {
      MissingSame(disk, ino, disk', ino', lo, hi - 1);
    }
  }

  // ----- how far a write has got ------------------------------------------

  /** The file block after the last one that n bytes at off reach. */
  function Hi(off: nat, n: nat): nat {
    if n == 0 then off / BSIZE else (off + n - 1) / BSIZE + 1
  }

  /** tot of n bytes at off are written, up to file block hi. */
  ghost predicate Reached(off: nat, n: nat, tot: nat, lo: nat, hi: nat) {
    && lo == off / BSIZE && (tot < n ==> hi * BSIZE <= off + tot < (hi + 1) * BSIZE)
    && if tot == 0 then hi == lo else lo < hi && (hi - 1) * BSIZE < off + tot <= hi * BSIZE
  }

  lemma ReachedNext(off: nat, n: nat, tot: nat, tot': nat, lo: nat, hi: nat)
    requires Reached(off, n, tot, lo, hi) && tot < tot' <= n && hi * BSIZE < off + tot' <= (hi + 1) * BSIZE
    requires tot' < n ==> off + tot' == (hi + 1) * BSIZE
    ensures Reached(off, n, tot', lo, hi + 1)
  {
  }

  lemma HiIs(off: nat, n: nat, lo: nat, hi: nat)
    requires Reached(off, n, n, lo, hi)
    ensures hi == Hi(off, n)
  {
  }

  lemma HiSmall(off: nat, n: nat)
    ensures off / BSIZE <= Hi(off, n) && (off + n <= MAXFILE * BSIZE ==> Hi(off, n) <= MAXFILE)
  {
  }

  lemma HiPast(off: nat, n: nat, tot: nat, hi: nat)
    requires tot < n && hi * BSIZE <= off + tot
    ensures hi < Hi(off, n)
  {
  }

  /** Offset o is byte x of file block bn. */
  ghost predicate At(o: nat, bn: nat, x: nat) {
    o == bn * BSIZE + x && x < BSIZE
  }

  /** Byte off%BSIZE of file block off/BSIZE, and as many of the bytes left as fit that block. */
  method Piece(o: nat, left: nat) returns (bn: nat, x: nat, m: nat)
    requires left > 0
    ensures At(o, bn, x) && 0 < m <= BSIZE - x && m <= left && (m < left ==> m == BSIZE - x)
  {
    bn, x := o / BSIZE, o % BSIZE;
    m := if left < BSIZE - x then left else BSIZE - x;
  }

  /** It is the block that the write has reached. */
  lemma PieceReached(off: nat, n: nat, tot: nat, hi: nat, bn: nat, x: nat, m: nat)
    requires Reached(off, n, tot, off / BSIZE, hi) && tot < n && At(off + tot, bn, x)
    requires 0 < m <= BSIZE - x && m <= n - tot && (m < n - tot ==> m == BSIZE - x)
    ensures bn == hi && hi < Hi(off, n) && Reached(off, n, tot + m, off / BSIZE, hi + 1)
  {
    HiPast(off, n, tot, hi);
    ReachedNext(off, n, tot, tot + m, off / BSIZE, hi);
  }

  // ----- writei -----------------------------------------------------------

  /** Where a write starts. */
  datatype Write = Write(disk: Disk, inodes: Inodes, owner: Owners, i: nat, off: nat) {
    predicate Has() {
      i in inodes && |inodes[i].addrs| == NDIRECT + 1
    }

    ghost predicate Valid(sb: Super) {
      Has() && Owned(sb, disk, inodes, owner) && off <= inodes[i].size
    }
  }

  /** The bytes c are in file i, and the other files are as they were. */
  ghost predicate Written(sb: Super, j: Write, disk: Disk, inodes: Inodes, owner: Owners, c: Bytes)
    requires j.Has()
  {
    && j.i in inodes && inodes == j.inodes[j.i := inodes[j.i]] && Owned(sb, disk, inodes, owner)
    && inodes[j.i].size == Most(j.inodes[j.i].size, j.off + |c|)
    && j.off <= |Content(j.disk, j.inodes[j.i])|
    && Content(disk, inodes[j.i]) == Spliced(Content(j.disk, j.inodes[j.i]), j.off, c)
    && FrameKept(j, disk, owner)
  }

  ghost predicate FrameKept(j: Write, disk: Disk, owner: Owners) {
    && (forall b :: b in j.owner ==> b in owner && owner[b] == j.owner[b])
    && FirstFit(j.owner, owner)
    && (forall b :: b in j.owner && IsNot(j.owner[b], j.i) && b in j.disk ==> b in disk && disk[b] == j.disk[b])
  }

  lemma WrittenStart(sb: Super, j: Write)
    requires Owned(sb, j.disk, j.inodes, j.owner) && j.i in j.inodes && j.off <= j.inodes[j.i].size
    ensures j.Valid(sb) && Written(sb, j, j.disk, j.inodes, j.owner, [])
  {
    assert FileOk(j.disk, j.owner, j.i, j.inodes[j.i]);
    assert j.inodes == j.inodes[j.i := j.inodes[j.i]];
    var s := Content(j.disk, j.inodes[j.i]);
    assert Spliced(s, j.off, []) == s;
  }

  /** The blocks that the file had stay where they were; it has those in reach of the write,
      and took the ones it needed. */
  ghost predicate Laid(sb: Super, j: Write, disk: Disk, ino: Inode, owner: Owners, hi: nat)
    requires j.Has()
  {
    var lo, was := j.off / BSIZE, j.inodes[j.i];
    && |ino.addrs| == NDIRECT + 1 && lo <= hi <= MAXFILE
    && (forall k :: 0 <= k < MAXFILE && (Addr(j.disk, was, k) != 0 || !(lo <= k < hi)) ==>
          Addr(disk, ino, k) == Addr(j.disk, was, k))
    && (forall k :: lo <= k < hi ==> Addr(disk, ino, k) != 0)
    && (was.addrs[NDIRECT] != 0 || !NeedsIndirect(was, lo, hi) ==> ino.addrs[NDIRECT] == was.addrs[NDIRECT])
    && |owner| == |j.owner| + Need(j.disk, was, lo, hi)
  }

  /** And the log has just the blocks that changed. */
  ghost predicate Logged(sb: Super, j: Write, disk: Disk, ino: Inode, owner: Owners, log0: set<nat>, log: set<nat>,
                         hi: nat)
    requires j.Has()
  {
    Laid(sb, j, disk, ino, owner, hi) && log == log0 + WriteLogs(sb, j.disk, j.inodes[j.i], disk, ino, j.off / BSIZE, hi)
  }

  lemma LoggedStart(sb: Super, j: Write, log: set<nat>) returns (lo: nat)
    requires j.Valid(sb) && j.off <= MAXFILE * BSIZE
    ensures lo == j.off / BSIZE && lo * BSIZE <= j.off < (lo + 1) * BSIZE
    ensures Logged(sb, j, j.disk, j.inodes[j.i], j.owner, log, log, lo)
  {
    lo := j.off / BSIZE;
  }

  lemma LaidNext(sb: Super, j: Write, disk: Disk, inodes: Inodes, owner: Owners, hi: nat,
                 disk1: Disk, ino1: Inode, owner1: Owners, disk2: Disk, ino2: Inode)
    requires j.Valid(sb) && j.i in inodes && Laid(sb, j, disk, inodes[j.i], owner, hi) && hi < MAXFILE
    requires Mapped(sb, disk, inodes, owner, j.i, hi, disk1, ino1, owner1)
    requires |owner1| == |owner| + New(disk, inodes[j.i], hi)
    requires SameAddrs(disk1, ino1, disk2, ino2) && ino2.addrs == ino1.addrs
    ensures Laid(sb, j, disk2, ino2, owner1, hi + 1)
  {
    IndirectThere(disk, inodes[j.i], j.off / BSIZE, hi);
  }

  /** The next block needs what bmap takes. */
  lemma NeedNext(sb: Super, j: Write, disk: Disk, ino: Inode, owner: Owners, hi: nat)
    requires j.Valid(sb) && Laid(sb, j, disk, ino, owner, hi) && hi < MAXFILE
    ensures |owner| + New(disk, ino, hi) == |j.owner| + Need(j.disk, j.inodes[j.i], j.off / BSIZE, hi + 1)
  {
    IndirectThere(disk, ino, j.off / BSIZE, hi);
  }

  lemma LoggedNext(sb: Super, j: Write, disk: Disk, inodes: Inodes, owner: Owners, log0: set<nat>, log: set<nat>,
                   hi: nat,
                   disk1: Disk, ino1: Inode, owner1: Owners, disk2: Disk, ino2: Inode)
    requires j.Valid(sb) && j.i in inodes && Logged(sb, j, disk, inodes[j.i], owner, log0, log, hi) && hi < MAXFILE
    requires Mapped(sb, disk, inodes, owner, j.i, hi, disk1, ino1, owner1)
    requires |owner1| == |owner| + New(disk, inodes[j.i], hi)
    requires SameAddrs(disk1, ino1, disk2, ino2) && ino2.addrs == ino1.addrs
    ensures
      var a := Addr(disk1, ino1, hi);
      var was := Addr(disk, inodes[j.i], hi);
      Logged(sb, j, disk2, ino2, owner1, log0, log + BmapLogs(sb, inodes[j.i], hi, was, a, ino1) + {a}, hi + 1)
  {
    var ino, lo, ino0 := inodes[j.i], j.off / BSIZE, j.inodes[j.i];
    LaidNext(sb, j, disk, inodes, owner, hi, disk1, ino1, owner1, disk2, ino2);
    WriteLogsSame(sb, j.disk, ino0, disk, ino, disk2, ino2, lo, hi);
    if ino0.addrs[NDIRECT] == 0 && ino.addrs[NDIRECT] != 0 {
      IndirectLogged(sb, j.disk, ino0, disk, ino, lo, hi, hi - 1);
    }
    LogStep(sb, j.disk, ino0, disk, ino, disk2, ino2, lo, hi);
  }

  /** The addresses in the inode have changed just if one was missing. */
  predicate AddrsThere(ino: Inode, lo: nat, hi: nat)
    requires |ino.addrs| == NDIRECT + 1
  {
    (forall k :: lo <= k < hi && k < NDIRECT ==> ino.addrs[k] != 0) && !NeedsIndirect(ino, lo, hi)
  }

  lemma AddrsSameIff(sb: Super, j: Write, disk: Disk, ino: Inode, owner: Owners, hi: nat)
    requires j.Valid(sb) && Laid(sb, j, disk, ino, owner, hi)
    ensures ino.addrs == j.inodes[j.i].addrs <==> AddrsThere(j.inodes[j.i], j.off / BSIZE, hi)
  {
    var was, lo := j.inodes[j.i], j.off / BSIZE;
    IndirectThere(disk, ino, lo, hi);
    assert forall k :: 0 <= k < NDIRECT ==> ino.addrs[k] == Addr(disk, ino, k) && was.addrs[k] == Addr(j.disk, was, k);
  }

  /** A file with a block past the direct ones has a block of addresses. */
  lemma IndirectThere(disk: Disk, ino: Inode, lo: nat, hi: nat)
    requires |ino.addrs| == NDIRECT + 1 && hi <= MAXFILE && forall k :: lo <= k < hi ==> Addr(disk, ino, k) != 0
    ensures !NeedsIndirect(ino, lo, hi)
  {
    if lo < hi { assert Addr(disk, ino, hi - 1) != 0; }
  }

  /** The last step of WriteLogs is what bmap logs now. */
  lemma LogStep(sb: Super, disk0: Disk, ino0: Inode, disk: Disk, ino: Inode, disk2: Disk, ino2: Inode, lo: nat, hi: nat)
    requires |ino0.addrs| == |ino.addrs| == |ino2.addrs| == NDIRECT + 1 && lo <= hi < MAXFILE
    requires Addr(disk, ino, hi) == Addr(disk0, ino0, hi) && Addr(disk2, ino2, hi) != 0
    requires ino0.addrs[NDIRECT] != 0 ==> ino.addrs[NDIRECT] == ino0.addrs[NDIRECT]
    requires ino.addrs[NDIRECT] != 0 ==> ino2.addrs[NDIRECT] == ino.addrs[NDIRECT]
    requires ino0.addrs[NDIRECT] == 0 && ino.addrs[NDIRECT] != 0 ==>
               BBlock(sb, ino.addrs[NDIRECT]) in WriteLogs(sb, disk0, ino0, disk2, ino2, lo, hi)
    ensures
      var a := Addr(disk2, ino2, hi);
      WriteLogs(sb, disk0, ino0, disk2, ino2, lo, hi + 1) ==
      WriteLogs(sb, disk0, ino0, disk2, ino2, lo, hi) + BmapLogs(sb, ino, hi, Addr(disk, ino, hi), a, ino2) + {a}
  {
  }

  function Longer(ino: Inode, n: nat): Inode {
    ino.(size := Most(ino.size, n))
  }

  function Stored(disk: Disk, a: nat, x: nat, d: Bytes): Disk
    requires a in disk && x + |d| <= |disk[a]|
  {
    disk[a := PutBytes(disk[a], x, d)]
  }

  /** One block more: bmap, then the bytes d into the block. */
  lemma WrittenNext(sb: Super, j: Write, disk: Disk, inodes: Inodes, owner: Owners, c: Bytes, d: Bytes,
                    bn: nat, x: nat, disk1: Disk, ino1: Inode, owner1: Owners, a: nat)
    requires j.Valid(sb) && Written(sb, j, disk, inodes, owner, c)
    requires At(j.off + |c|, bn, x) && |d| > 0 && x + |d| <= BSIZE && bn < MAXFILE
    requires Mapped(sb, disk, inodes, owner, j.i, bn, disk1, ino1, owner1) && a == Addr(disk1, ino1, bn)
    ensures a in disk1 && |disk1[a]| == BSIZE
    ensures
      var disk2, ino2 := Stored(disk1, a, x, d), Longer(ino1, j.off + |c| + |d|);
      && Written(sb, j, disk2, inodes[j.i := ino2], owner1, c + d)
      && SameAddrs(disk1, ino1, disk2, ino2)
  {
    var o := j.off + |c|;
    assert o / BSIZE == bn && o % BSIZE == x;
    var inodes1 := inodes[j.i := ino1];
    BmapContent(sb, disk, inodes, owner, j.i, bn, disk1, ino1, owner1);
    WriteOwned(sb, disk1, inodes1, owner1, j.i, o, |d|, a, Zeros());
    var disk2, ino2 := Stored(disk1, a, x, d), Longer(ino1, o + |d|);
    WriteOwned(sb, disk1, inodes1, owner1, j.i, o, |d|, a, disk2[a]);
    WriteContent(disk1, owner1, j.i, ino1, o, d, a);
    SplicedTwice(Content(j.disk, j.inodes[j.i]), j.off, c, d);
    assert inodes1[j.i := ino2] == inodes[j.i := ino2] == j.inodes[j.i := ino2];
    WriteAddrs(disk1, owner1, j.i, ino1, a, bn, disk2, ino2);
    WrittenFrame(sb, j, disk, owner, disk1, owner1, a, disk2);
  }

  lemma BmapContent(sb: Super, disk: Disk, inodes: Inodes, owner: Owners, i: nat, bn: nat, disk1: Disk, ino1: Inode,
                    owner1: Owners)
    requires Owned(sb, disk, inodes, owner) && i in inodes && Mapped(sb, disk, inodes, owner, i, bn, disk1, ino1, owner1)
    ensures Content(disk1, ino1) == Content(disk, inodes[i])
  {
    assert FileOk(disk, owner, i, inodes[i]);
    forall c | c in owner ensures c in disk {
      assert OwnerOk(sb, disk, inodes, owner, c);
    }
    ContentKept(disk, owner, i, inodes[i], disk1, ino1);
  }

  lemma WriteAddrs(disk: Disk, owner: Owners, i: nat, ino: Inode, a: nat, bn: nat, disk': Disk, ino': Inode)
    requires FileOk(disk, owner, i, ino) && a in owner && owner[a] == Data(i, bn) && ino'.addrs == ino.addrs
    requires forall c :: c != a ==> (c in disk' <==> c in disk) && (c in disk ==> disk'[c] == disk[c])
    ensures SameAddrs(disk, ino, disk', ino')
  {
  }

  lemma WrittenFrame(sb: Super, j: Write, disk: Disk, owner: Owners, disk1: Disk, owner1: Owners, a: nat, disk2: Disk)
    requires j.Valid(sb) && FrameKept(j, disk, owner) && Kept(disk, disk1, owner, owner1, j.i)
    requires a in owner1 && owner1[a].Data? && owner1[a].i == j.i
    requires forall c :: c != a && c in disk1 ==> c in disk2 && disk2[c] == disk1[c]
    ensures FrameKept(j, disk2, owner1)
  {
    FirstFitTrans(j.owner, owner, owner1);
  }

  lemma TableNext(j: Write, disk: Disk, owner: Owners, disk1: Disk, owner1: Owners, a: nat, disk2: Disk)
    requires FrameKept(j, disk, owner) && Kept(disk, disk1, owner, owner1, j.i) && TableSame(j.disk, disk, j.owner)
    requires a in owner1 && owner1[a].Data?
    requires forall c :: c != a && c in disk1 ==> c in disk2 && disk2[c] == disk1[c]
    ensures TableSame(j.disk, disk2, j.owner)
  {
  }

  lemma MappedTrans(sb: Super, disk: Disk, inodes: Inodes, owner: Owners, i: nat, bn: nat, disk1: Disk, ino1: Inode,
                    owner1: Owners, disk2: Disk, owner2: Owners)
    requires i in inodes && SameAddrs(disk, inodes[i], disk1, ino1) && ino1.size == inodes[i].size
    requires inodes[i].addrs[NDIRECT] != 0 ==> ino1 == inodes[i] && owner1 == owner && disk1 == disk
    requires NDIRECT <= bn < MAXFILE && Kept(disk, disk1, owner, owner1, i)
    requires Mapped(sb, disk1, inodes[i := ino1], owner1, i, bn, disk2, ino1, owner2)
    ensures Mapped(sb, disk, inodes, owner, i, bn, disk2, ino1, owner2)
  {
    FirstFitTrans(owner, owner1, owner2);
    assert inodes[i := ino1][i := ino1] == inodes[i := ino1];
    assert inodes[i].addrs[NDIRECT] == 0 ==> Addr(disk, inodes[i], bn) == 0;
  }

  /** How far writei has got: the bytes c are written, up to file block hi. */
  ghost predicate Ongoing(sb: Super, j: Write, disk: Disk, inodes: Inodes, owner: Owners, c: Bytes, log0: set<nat>,
                          log: set<nat>, hi: nat)
  {
    && j.Has() && Written(sb, j, disk, inodes, owner, c) && BitsOk(sb, disk, owner)
    && TableSame(j.disk, disk, j.owner) && Logged(sb, j, disk, inodes[j.i], owner, log0, log, hi)
  }

  lemma OngoingStart(sb: Super, j: Write, log: set<nat>)
    requires Repr(sb, j.disk, j.inodes, j.owner) && j.i in j.inodes && j.off <= j.inodes[j.i].size
    ensures j.Valid(sb) && Ongoing(sb, j, j.disk, j.inodes, j.owner, [], log, log, j.off / BSIZE)
  {
    WrittenStart(sb, j);
    assert FileOk(j.disk, j.owner, j.i, j.inodes[j.i]);
    var lo := LoggedStart(sb, j, log);
  }

  /** What a round of writei goes by. */
  lemma WriteStep(sb: Super, j: Write, disk: Disk, ino: Inode, owner: Owners, n: nat, tot: nat, hi: nat, bn: nat, x: nat,
                  m: nat)
    requires j.Valid(sb) && Laid(sb, j, disk, ino, owner, hi) && Hi(j.off, n) <= MAXFILE
    requires Reached(j.off, n, tot, j.off / BSIZE, hi) && tot < n && At(j.off + tot, bn, x)
    requires 0 < m <= BSIZE - x && m <= n - tot && (m < n - tot ==> m == BSIZE - x)
    ensures bn == hi && hi < Hi(j.off, n) && Reached(j.off, n, tot + m, j.off / BSIZE, hi + 1)
    ensures |owner| + New(disk, ino, hi) <= |j.owner| + Need(j.disk, j.inodes[j.i], j.off / BSIZE, Hi(j.off, n))
  {
    PieceReached(j.off, n, tot, hi, bn, x, m);
    NeedNext(sb, j, disk, ino, owner, hi);
    NeedBounds(j.disk, j.inodes[j.i], j.off / BSIZE, hi + 1, Hi(j.off, n));
  }

  lemma WriteRound(sb: Super, j: Write, disk: Disk, inodes: Inodes, owner: Owners, log0: set<nat>, log: set<nat>,
                   src: Bytes,
                   tot: nat, tot': nat, bn: nat, x: nat, disk1: Disk, ino1: Inode, owner1: Owners, a: nat)
    requires tot < tot' <= |src| && At(j.off + tot, bn, x) && x + (tot' - tot) <= BSIZE && bn < MAXFILE
    requires j.Valid(sb) && Ongoing(sb, j, disk, inodes, owner, src[..tot], log0, log, bn)
    requires Mapped(sb, disk, inodes, owner, j.i, bn, disk1, ino1, owner1) && a == Addr(disk1, ino1, bn)
    requires |owner1| == |owner| + New(disk, inodes[j.i], bn) && BitsOk(sb, disk1, owner1)
    ensures a in disk1 && |disk1[a]| == BSIZE
    ensures
      var disk2, ino2 := Stored(disk1, a, x, src[tot..tot']), Longer(ino1, j.off + tot');
      var log1 := log + BmapLogs(sb, inodes[j.i], bn, Addr(disk, inodes[j.i], bn), a, ino1) + {a};
      Ongoing(sb, j, disk2, inodes[j.i := ino2], owner1, src[..tot'], log0, log1, bn + 1)
  {
    var c, d := src[..tot], src[tot..tot'];
    WrittenNext(sb, j, disk, inodes, owner, c, d, bn, x, disk1, ino1, owner1, a);
    LongerPrefix(src, tot, tot');
    var disk2, ino2 := Stored(disk1, a, x, d), Longer(ino1, j.off + tot');
    LoggedNext(sb, j, disk, inodes, owner, log0, log, bn, disk1, ino1, owner1, disk2, ino2);
    assert FileOk(disk1, owner1, j.i, inodes[j.i := ino1][j.i]) && BlockOk(disk1, owner1, j.i, ino1, bn);
    TableNext(j, disk, owner, disk1, owner1, a, disk2);
    BitsKept(sb, disk1, disk2, owner1, a);
  }

  // ----- what a write leaves ----------------------------------------------

  /** What writei refuses: an offset past the end, a sum past 32 bits, too long a file. */
  predicate Refused(size: nat, off: nat, n: nat) {
    off > size || off + n >= WORD || off + n > MAXFILE * BSIZE
  }

  predicate Grows(ino: Inode, off: nat, n: nat) {
    n > 0 && off + n > ino.size
  }

  /** What writei has done: c is in the file; the log has the blocks that changed. */
  ghost predicate Wrote(sb: Super, j: Write, disk: Disk, inodes: Inodes, owner: Owners, c: Bytes, log0: set<nat>,
                        log: set<nat>)
  {
    var lo, hi := j.off / BSIZE, Hi(j.off, |c|);
    && j.Valid(sb) && hi <= MAXFILE && Written(sb, j, disk, inodes, owner, c) && BitsOk(sb, disk, owner)
    && Laid(sb, j, disk, inodes[j.i], owner, hi)
    && log == log0 + WriteLogs(sb, j.disk, j.inodes[j.i], disk, inodes[j.i], lo, hi) +
              if Grows(j.inodes[j.i], j.off, |c|) then {IBlock(sb, j.i)} else {}
  }

  /** What it has done to inodes on disk, where d is the one in memory and d0 was: it writes the
      inode if the file grew.  That keeps disk and memory in step unless an address was
      filled in without growth. */
  ghost predicate Recorded(sb: Super, j: Write, disk: Disk, n: nat, d0: Dinode, d: Dinode)
    requires j.i in j.inodes && |j.inodes[j.i].addrs| == NDIRECT + 1
  {
    && (forall k :: k in j.inodes && k != j.i ==> OnDisk(sb, disk, k) == OnDisk(sb, j.disk, k))
    && OnDisk(sb, disk, j.i) == (if Grows(j.inodes[j.i], j.off, n) then d else OnDisk(sb, j.disk, j.i))
    && (OnDisk(sb, j.disk, j.i) == d0 ==>
          (OnDisk(sb, disk, j.i) == d <==>
             Grows(j.inodes[j.i], j.off, n) || AddrsThere(j.inodes[j.i], j.off / BSIZE, Hi(j.off, n))))
  }

  /** Before iupdate the inodes on disk are as they were, and the addresses in memory are
      just if none was missing. */
  lemma OngoingEnd(sb: Super, j: Write, disk: Disk, inodes: Inodes, owner: Owners, c: Bytes, log0: set<nat>,
                   log: set<nat>)
    requires j.Valid(sb) && Hi(j.off, |c|) <= MAXFILE && Ongoing(sb, j, disk, inodes, owner, c, log0, log, Hi(j.off, |c|))
    ensures forall k :: k in j.inodes ==> OnDisk(sb, disk, k) == OnDisk(sb, j.disk, k)
    ensures inodes[j.i].addrs == j.inodes[j.i].addrs <==> AddrsThere(j.inodes[j.i], j.off / BSIZE, Hi(j.off, |c|))
    ensures |owner| <= sb.size
  {
    TableKept(sb, j.disk, j.inodes, j.owner, disk);
    AddrsSameIff(sb, j, disk, inodes[j.i], owner, Hi(j.off, |c|));
    FreePlusOwned(sb, disk, inodes, owner);
  }

  lemma NoUpdateEnd(sb: Super, j: Write, disk: Disk, inodes: Inodes, owner: Owners, c: Bytes, log0: set<nat>,
                    log: set<nat>, d0: Dinode, d: Dinode)
    requires j.Valid(sb) && Hi(j.off, |c|) <= MAXFILE && Ongoing(sb, j, disk, inodes, owner, c, log0, log, Hi(j.off, |c|))
    requires !Grows(j.inodes[j.i], j.off, |c|) && d0.ino == j.inodes[j.i] && d == d0.(ino := inodes[j.i])
    ensures Wrote(sb, j, disk, inodes, owner, c, log0, log) && Recorded(sb, j, disk, |c|, d0, d) && |owner| <= sb.size
  {
    OngoingEnd(sb, j, disk, inodes, owner, c, log0, log);
  }

  lemma UpdateEnd(sb: Super, j: Write, disk1: Disk, inodes: Inodes, owner: Owners, c: Bytes, log0: set<nat>,
                  log: set<nat>, disk: Disk, d0: Dinode, d: Dinode)
    requires j.Valid(sb) && Hi(j.off, |c|) <= MAXFILE && Ongoing(sb, j, disk1, inodes, owner, c, log0, log, Hi(j.off, |c|))
    requires Grows(j.inodes[j.i], j.off, |c|) && Updated(sb, disk1, disk, j.i, d) && Repr(sb, disk, inodes, owner)
    requires SameAddrs(disk1, inodes[j.i], disk, inodes[j.i])
    ensures Wrote(sb, j, disk, inodes, owner, c, log0, log + {IBlock(sb, j.i)}) && Recorded(sb, j, disk, |c|, d0, d)
    ensures |owner| <= sb.size
  {
    OngoingEnd(sb, j, disk1, inodes, owner, c, log0, log);
    WrittenUpdate(sb, j, disk1, inodes, owner, c, disk, log0, log, Hi(j.off, |c|));
  }

  lemma WrittenUpdate(sb: Super, j: Write, disk1: Disk, inodes: Inodes, owner: Owners, c: Bytes, disk: Disk,
                      log0: set<nat>, log: set<nat>, hi: nat)
    requires j.Valid(sb) && Written(sb, j, disk1, inodes, owner, c) && Owned(sb, disk, inodes, owner)
    requires Logged(sb, j, disk1, inodes[j.i], owner, log0, log, hi)
    requires IBlock(sb, j.i) in disk && disk == disk1[IBlock(sb, j.i) := disk[IBlock(sb, j.i)]]
    requires SameAddrs(disk1, inodes[j.i], disk, inodes[j.i])
    ensures Written(sb, j, disk, inodes, owner, c) && Logged(sb, j, disk, inodes[j.i], owner, log0, log, hi)
  {
    var ino, lo := inodes[j.i], j.off / BSIZE;
    assert FileOk(disk1, owner, j.i, ino);
    forall b | b in owner ensures b in disk1 {
      assert OwnerOk(sb, disk1, inodes, owner, b);
    }
    ContentKept(disk1, owner, j.i, ino, disk, ino);
    WriteLogsSame(sb, j.disk, j.inodes[j.i], disk1, ino, disk, ino, lo, hi);
  }

  /** A write that goes on from where another got to needs what both need together. */
  lemma LaidNeed(sb: Super, j: Write, disk: Disk, ino: Inode, owner: Owners, hi: nat, lo1: nat, hi2: nat)
    requires j.Has() && Laid(sb, j, disk, ino, owner, hi) && j.off / BSIZE <= lo1 <= hi <= hi2 <= MAXFILE && lo1 < hi2
    ensures |owner| + Need(disk, ino, lo1, hi2) == |j.owner| + Need(j.disk, j.inodes[j.i], j.off / BSIZE, hi2)
  {
    var was, lo := j.inodes[j.i], j.off / BSIZE;
    MissingSplit(j.disk, was, lo, hi, hi2);
    MissingSplit(disk, ino, lo1, hi, hi2);
    MissingSame(j.disk, was, disk, ino, hi, hi2);
    NeedNone(disk, ino, lo1, hi);
    IndirectThere(disk, ino, lo, hi);
  }

  lemma LaidTrans(sb: Super, j: Write, j1: Write, disk: Disk, ino: Inode, owner: Owners, hi: nat, hi2: nat)
    requires j.Has() && j1.Has() && j1.i == j.i && Laid(sb, j, j1.disk, j1.inodes[j.i], j1.owner, hi)
    requires Laid(sb, j1, disk, ino, owner, hi2) && j.off / BSIZE <= j1.off / BSIZE <= hi <= hi2 && j1.off / BSIZE < hi2
    ensures Laid(sb, j, disk, ino, owner, hi2)
  {
    LaidNeed(sb, j, j1.disk, j1.inodes[j.i], j1.owner, hi, j1.off / BSIZE, hi2);
    forall k | j.off / BSIZE <= k < hi2 ensures Addr(disk, ino, k) != 0 {
      assert k < hi ==> Addr(j1.disk, j1.inodes[j.i], k) != 0;
    }
  }

  lemma HiNext(off: nat, i: nat, i': nat, o: nat, n: nat)
    requires n > 0 && o == off + i && i' == i + n
    ensures Hi(o, n) == Hi(off, i') && off / BSIZE <= o / BSIZE <= Hi(off, i) <= Hi(off, i') && o / BSIZE < Hi(off, i')
  {
  }

  lemma WrittenTrans(sb: Super, j: Write, disk1: Disk, inodes1: Inodes, owner1: Owners, c: Bytes,
                     disk2: Disk, inodes2: Inodes, owner2: Owners, d: Bytes)
    requires j.Valid(sb) && Written(sb, j, disk1, inodes1, owner1, c)
    requires
      var j1 := Write(disk1, inodes1, owner1, j.i, j.off + |c|);
      j1.Valid(sb) && Written(sb, j1, disk2, inodes2, owner2, d)
    ensures Written(sb, j, disk2, inodes2, owner2, c + d)
  {
    SplicedTwice(Content(j.disk, j.inodes[j.i]), j.off, c, d);
    assert j.inodes[j.i := inodes1[j.i]][j.i := inodes2[j.i]] == j.inodes[j.i := inodes2[j.i]];
    FirstFitTrans(j.owner, owner1, owner2);
    forall b | b in j.owner && IsNot(j.owner[b], j.i) && b in j.disk
      ensures b in disk2 && disk2[b] == j.disk[b]
    {
      assert b in owner1 && owner1[b] == j.owner[b];
    }
  }

  /** What a write leaves alone: the other files' contents and inodes. */
  lemma WrittenOthers(sb: Super, j: Write, disk: Disk, inodes: Inodes, owner: Owners, c: Bytes, k: nat)
    requires j.Valid(sb) && Written(sb, j, disk, inodes, owner, c) && k in j.inodes && k != j.i
    ensures k in inodes && inodes[k] == j.inodes[k] && Content(disk, inodes[k]) == Content(j.disk, j.inodes[k])
    ensures HoleFree(disk, inodes[k]) <==> HoleFree(j.disk, j.inodes[k])
  {
    OtherContentKept(sb, j.disk, j.inodes, j.owner, disk, owner, j.i, k);
  }

  // ----- readi ------------------------------------------------------------

  /** The file has its blocks from that at j.off to hi; no contents have changed. */
  ghost predicate Filled(sb: Super, j: Write, disk: Disk, inodes: Inodes, owner: Owners, hi: nat) {
    && j.Valid(sb) && Written(sb, j, disk, inodes, owner, []) && TableSame(j.disk, disk, j.owner)
    && Laid(sb, j, disk, inodes[j.i], owner, hi)
  }

  /** No block from that at j.off to hi is missing. */
  ghost predicate AllThere(j: Write, hi: nat) {
    && j.i in j.inodes && |j.inodes[j.i].addrs| == NDIRECT + 1 && hi <= MAXFILE
    && (forall k :: j.off / BSIZE <= k < hi ==> Addr(j.disk, j.inodes[j.i], k) != 0)
  }

  /** What a round of readi goes by. */
  lemma ReadStep(sb: Super, j: Write, disk: Disk, inodes: Inodes, owner: Owners, len: nat, tot: nat, hi: nat, bn: nat,
                 x: nat, m: nat)
    requires Filled(sb, j, disk, inodes, owner, hi) && BitsOk(sb, disk, owner) && j.off + len <= j.inodes[j.i].size
    requires Reached(j.off, len, tot, j.off / BSIZE, hi) && tot < len && At(j.off + tot, bn, x) && Hi(j.off, len) <= MAXFILE
    requires 0 < m <= BSIZE - x && m <= len - tot && (m < len - tot ==> m == BSIZE - x)
    ensures bn == hi && hi < Hi(j.off, len) && inodes[j.i].size == j.inodes[j.i].size && |inodes[j.i].addrs| == NDIRECT + 1
    ensures Reached(j.off, len, tot + m, j.off / BSIZE, hi + 1)
    ensures |owner| + New(disk, inodes[j.i], hi) <= |j.owner| + Need(j.disk, j.inodes[j.i], j.off / BSIZE, Hi(j.off, len))
    ensures AllThere(j, Hi(j.off, len)) ==> Addr(disk, inodes[j.i], hi) != 0 && |owner| <= sb.size
  {
    WriteStep(sb, j, disk, inodes[j.i], owner, len, tot, hi, bn, x, m);
    FreePlusOwned(sb, disk, inodes, owner);
  }

  lemma FilledStart(sb: Super, j: Write, len: nat)
    requires Repr(sb, j.disk, j.inodes, j.owner) && j.i in j.inodes && j.off + len <= j.inodes[j.i].size
    ensures Filled(sb, j, j.disk, j.inodes, j.owner, j.off / BSIZE) && j.off / BSIZE <= Hi(j.off, len) <= MAXFILE
    ensures HoleFree(j.disk, j.inodes[j.i]) ==> AllThere(j, Hi(j.off, len))
  {
    WrittenStart(sb, j);
    assert FileOk(j.disk, j.owner, j.i, j.inodes[j.i]);
    var lo := LoggedStart(sb, j, {});
    HiSmall(j.off, len);
    SolidRange(j.disk, j.inodes[j.i], j.off, len);
  }

  lemma FilledNext(sb: Super, j: Write, disk: Disk, inodes: Inodes, owner: Owners, hi: nat,
                   disk1: Disk, ino1: Inode, owner1: Owners)
    requires Filled(sb, j, disk, inodes, owner, hi) && hi < MAXFILE
    requires Mapped(sb, disk, inodes, owner, j.i, hi, disk1, ino1, owner1)
    requires |owner1| == |owner| + New(disk, inodes[j.i], hi)
    ensures Filled(sb, j, disk1, inodes[j.i := ino1], owner1, hi + 1)
  {
    var inodes1 := inodes[j.i := ino1];
    BmapContent(sb, disk, inodes, owner, j.i, hi, disk1, ino1, owner1);
    assert inodes1 == j.inodes[j.i := ino1];
    LaidNext(sb, j, disk, inodes, owner, hi, disk1, ino1, owner1, disk1, ino1);
    FirstFitTrans(j.owner, owner, owner1);
  }

  lemma FilledRead(sb: Super, j: Write, disk: Disk, inodes: Inodes, owner: Owners, hi: nat, o: nat, x: nat, m: nat,
                   a: nat, s: Bytes)
    requires Filled(sb, j, disk, inodes, owner, hi + 1) && At(o, hi, x) && 0 < m <= BSIZE - x && hi < MAXFILE
    requires j.off <= o && o + m <= j.inodes[j.i].size && a == Addr(disk, inodes[j.i], hi) && s == Content(j.disk, j.inodes[j.i])
    ensures a in disk && |disk[a]| == BSIZE && disk[a][x..x + m] == s[o..o + m]
  {
    assert o / BSIZE == hi && o % BSIZE == x;
    assert FileOk(disk, owner, j.i, inodes[j.i]) && BlockOk(disk, owner, j.i, inodes[j.i], hi);
    assert OwnerOk(sb, disk, inodes, owner, a);
    ChunkIs(disk, inodes[j.i], o, m, a);
    assert Spliced(s, j.off, []) == s;
  }

  lemma SliceMore(s: Bytes, off: nat, tot: nat, m: nat, dst: Bytes, c: Bytes)
    requires off + tot + m <= |s| && dst == s[off..off + tot] && c == s[off + tot..off + tot + m]
    ensures dst + c == s[off..off + (tot + m)]
  {
  }

  /** A file without holes has the blocks of all its bytes. */
  lemma SolidRange(disk: Disk, ino: Inode, off: nat, n: nat)
    requires |ino.addrs| == NDIRECT + 1 && off + n <= ino.size && Hi(off, n) <= MAXFILE
    ensures HoleFree(disk, ino) ==> forall k :: off / BSIZE <= k < Hi(off, n) ==> Addr(disk, ino, k) != 0
  {
    if HoleFree(disk, ino) {
      forall k | off / BSIZE <= k < Hi(off, n) ensures Addr(disk, ino, k) != 0 {
        assert k * BSIZE < ino.size;
      }
    }
  }
}
