/**
 filewrite's chunks (file.c): what one of them logs, and exactly when it is more than
 MAXOPBLOCKS blocks.  On a file without holes it never is.
 */
module ChunkBound {
  import opened Common
  import opened Blocks
  import opened BlockMap
  import opened FileData
  import opened WriteCount

  // ----- chunks -----------------------------------------------------------

  /** filewrite's `max`. */
  const MAXCHUNK := (MAXOPBLOCKS - 1 - 1 - 2) / 2 * 512

  /** The bytes of the chunk at byte i. */
  function Chunk(src: Bytes, i: nat): nat
    requires i <= |src|
  {
    if |src| - i > MAXCHUNK then MAXCHUNK else |src| - i
  }

  /** The number of chunks of n bytes. */
  function Chunks(n: nat): nat {
    (n + MAXCHUNK - 1) / MAXCHUNK
  }

  /** After t chunks of n bytes, w are written. */
  ghost predicate Rounds(n: nat, w: nat, t: nat) {
    t <= Chunks(n) && (w < n ==> w == t * MAXCHUNK)
  }

  lemma RoundsNext(n: nat, w: nat, t: nat)
    requires Rounds(n, w, t) && w < n
    ensures t + 1 <= Chunks(n)
    ensures Rounds(n, w + if n - w > MAXCHUNK then MAXCHUNK else n - w, t + 1)
  {
    assert t * MAXCHUNK < n;
  }

  /** A chunk reaches at most four blocks, and four only from the middle of one. */
  lemma ChunkSpan(off: nat, n: nat)
    requires 0 < n <= MAXCHUNK
    ensures 0 < Hi(off, n) - off / BSIZE <= 4
    ensures Hi(off, n) - off / BSIZE == 4 ==> off % BSIZE != 0
  {
  }

  // ----- the bound --------------------------------------------------------

  /** The block that a write starts in the middle of is there. */
  predicate StartThere(disk: Disk, ino: Inode, off: nat) {
    |ino.addrs| == NDIRECT + 1 && off / BSIZE < MAXFILE && (off % BSIZE != 0 ==> Addr(disk, ino, off / BSIZE) != 0)
  }

  /** The bound filewrite's chunk size is chosen for.  It needs the block that an unaligned
      write starts in to be mapped, which it is in a file without holes. */
  lemma ChunkFits(sb: Super, j: Write, disk': Disk, ino': Inode, n: nat, iblock: nat)
    requires j.Valid(sb) && |ino'.addrs| == NDIRECT + 1 && 0 < n <= MAXCHUNK && Hi(j.off, n) <= MAXFILE
    ensures StartThere(j.disk, j.inodes[j.i], j.off) ==>
              |WriteLogs(sb, j.disk, j.inodes[j.i], disk', ino', j.off / BSIZE, Hi(j.off, n)) + {iblock}| <= MAXOPBLOCKS &&
              |WriteLogs(sb, j.disk, j.inodes[j.i], disk', ino', j.off / BSIZE, Hi(j.off, n))| <= MAXOPBLOCKS
  {
    var ino, lo := j.inodes[j.i], j.off / BSIZE;
    ChunkSpan(j.off, n);
    WriteLogsCount(sb, j.disk, ino, disk', ino', lo, Hi(j.off, n));
  }

  /** A write to a file without holes leaves none, and fills in no address unless it grows
      the file. */
  lemma SolidWrite(sb: Super, j: Write, disk: Disk, inodes: Inodes, owner: Owners, c: Bytes)
    requires j.Valid(sb) && Written(sb, j, disk, inodes, owner, c) && Hi(j.off, |c|) <= MAXFILE
    requires Laid(sb, j, disk, inodes[j.i], owner, Hi(j.off, |c|)) && HoleFree(j.disk, j.inodes[j.i])
    ensures HoleFree(disk, inodes[j.i])
    ensures |c| > 0 ==> StartThere(j.disk, j.inodes[j.i], j.off)
    ensures Grows(j.inodes[j.i], j.off, |c|) || AddrsThere(j.inodes[j.i], j.off / BSIZE, Hi(j.off, |c|))
  {
    var was, ino, n := j.inodes[j.i], inodes[j.i], |c|;
    forall bn | 0 <= bn < MAXFILE && bn * BSIZE < ino.size ensures Addr(disk, ino, bn) != 0 {
      if bn * BSIZE >= was.size {
        PastOld(j.off, n, bn);
      } else {
        assert Addr(j.disk, was, bn) != 0;
      }
    }
    SolidStart(j.disk, was, j.off, n);
  }

  lemma SolidStart(disk: Disk, ino: Inode, off: nat, n: nat)
    requires HoleFree(disk, ino) && off <= ino.size && Hi(off, n) <= MAXFILE
    ensures n > 0 ==> StartThere(disk, ino, off)
    ensures Grows(ino, off, n) || AddrsThere(ino, off / BSIZE, Hi(off, n))
  {
    if n > 0 {
      HiPast(off, n, 0, off / BSIZE);
      assert off % BSIZE != 0 ==> off / BSIZE * BSIZE < ino.size;
      if off + n <= ino.size {
        SolidRange(disk, ino, off, n);
        IndirectThere(disk, ino, off / BSIZE, Hi(off, n));
        assert forall k :: 0 <= k < NDIRECT ==> ino.addrs[k] == Addr(disk, ino, k);
      }
    }
  }

  lemma PastOld(off: nat, n: nat, bn: nat)
    requires off <= bn * BSIZE < off + n
    ensures off / BSIZE <= bn < Hi(off, n)
  {
  }

  // ----- the bound, exactly -----------------------------------------------

  /** A chunk that passes the bound: it reaches four blocks, all missing, and the block of
      addresses is too; it grows the file; and the five blocks it takes are under as many
      bitmap blocks. */
  ghost predicate Passes(sb: Super, disk: Disk, ino: Inode, off: nat, n: nat)
    requires |ino.addrs| == NDIRECT + 1 && Hi(off, n) <= MAXFILE
  {
    && Hi(off, n) - off / BSIZE == 4 && Need(disk, ino, off / BSIZE, Hi(off, n)) == 5 && Grows(ino, off, n)
    && |BitmapOf(sb, FirstFree(sb, disk, 5))| == 5
  }

  /** Four blocks take at most five, and all of them are missing if they take five. */
  lemma {:induction false} NeedAll(disk: Disk, ino: Inode, lo: nat, hi: nat)
    requires |ino.addrs| == NDIRECT + 1 && lo < hi <= MAXFILE
    ensures Need(disk, ino, lo, hi) <= hi - lo + 1
    ensures Need(disk, ino, lo, hi) == hi - lo + 1 ==> Addr(disk, ino, lo) == 0 && Through(disk, ino, lo, hi)
  {
    NeedBounds(disk, ino, lo, lo + 1, hi);
    ThroughNext(disk, ino, lo, hi);
    MissingFirst(disk, ino, lo, hi);
  }

  lemma {:induction false} MissingFirst(disk: Disk, ino: Inode, lo: nat, hi: nat)
    requires |ino.addrs| == NDIRECT + 1 && lo < hi <= MAXFILE
    ensures Addr(disk, ino, lo) != 0 ==> Missing(disk, ino, lo, hi) < hi - lo
    decreases hi
  {
    if lo < hi - 1 {
      MissingFirst(disk, ino, lo, hi - 1);
    } else {
      assert Missing(disk, ino, lo, lo) == 0;
    }
  }

  /** The bound is passed exactly then, and by one. */
  lemma PassesIff(sb: Super, disk: Disk, ino: Inode, off: nat, n: nat)
    requires |ino.addrs| == NDIRECT + 1 && Hi(off, n) <= MAXFILE && 0 < n <= MAXCHUNK
    ensures LogSize(sb, disk, ino, off, n) > MAXOPBLOCKS <==> Passes(sb, disk, ino, off, n)
    ensures LogSize(sb, disk, ino, off, n) <= MAXOPBLOCKS + 1
    ensures StartThere(disk, ino, off) ==> LogSize(sb, disk, ino, off, n) <= MAXOPBLOCKS
  {
    var lo, hi := off / BSIZE, Hi(off, n);
    ChunkSpan(off, n);
    NeedAll(disk, ino, lo, hi);
    FirstFreeCount(sb, disk, Need(disk, ino, lo, hi));
  }

  lemma ChunkLogs(sb: Super, j: Write, disk: Disk, inodes: Inodes, owner: Owners, c: Bytes, log: set<nat>)
    requires Repr(sb, j.disk, j.inodes, j.owner) && 0 < |c| <= MAXCHUNK && Wrote(sb, j, disk, inodes, owner, c, {}, log)
    ensures |log| == LogSize(sb, j.disk, j.inodes[j.i], j.off, |c|)
    ensures |log| > MAXOPBLOCKS <==> Passes(sb, j.disk, j.inodes[j.i], j.off, |c|)
    ensures StartThere(j.disk, j.inodes[j.i], j.off) ==> |log| <= MAXOPBLOCKS
  {
    WroteCount(sb, j, disk, inodes, owner, c, log);
    PassesIff(sb, j.disk, j.inodes[j.i], j.off, |c|);
  }

  // ----- chunk after chunk ------------------------------------------------

  /** The bytes c are in the file; or the offset is past its end, and nothing happened. */
  ghost predicate Done(sb: Super, j: Write, disk: Disk, inodes: Inodes, owner: Owners, c: Bytes) {
    && j.Has() && j.i in inodes && BitsOk(sb, disk, owner)
    && if j.off <= j.inodes[j.i].size then Written(sb, j, disk, inodes, owner, c)
       else Owned(sb, disk, inodes, owner) && c == [] && disk == j.disk && inodes == j.inodes && owner == j.owner
  }

  lemma DoneStart(sb: Super, j: Write)
    requires Repr(sb, j.disk, j.inodes, j.owner) && j.i in j.inodes
    ensures Done(sb, j, j.disk, j.inodes, j.owner, [])
  {
    assert FileOk(j.disk, j.owner, j.i, j.inodes[j.i]);
    if j.off <= j.inodes[j.i].size {
      WrittenStart(sb, j);
    }
  }

  lemma DoneNext(sb: Super, j: Write, disk1: Disk, inodes1: Inodes, owner1: Owners, disk2: Disk, inodes2: Inodes,
                 owner2: Owners, src: Bytes, i: nat, i': nat)
    requires i <= i' <= |src| && Done(sb, j, disk1, inodes1, owner1, src[..i]) && BitsOk(sb, disk2, owner2)
    requires Owned(sb, j.disk, j.inodes, j.owner)
    requires
      var j1 := Write(disk1, inodes1, owner1, j.i, j.off + i);
      j1.Valid(sb) && Written(sb, j1, disk2, inodes2, owner2, src[i..i'])
    ensures Done(sb, j, disk2, inodes2, owner2, src[..i'])
  {
    WrittenTrans(sb, j, disk1, inodes1, owner1, src[..i], disk2, inodes2, owner2, src[i..i']);
    LongerPrefix(src, i, i');
  }

  /** The bytes filewrite writes of n at off, in a file of the given size, when it has written
      w: it stops at the first chunk that is refused. */
  function Reach(size: nat, off: nat, n: nat, w: nat): (r: nat)
    requires w <= n
    ensures w <= r <= n
    decreases n - w
  {
    if w == n then n
    else
      var c := if n - w > MAXCHUNK then MAXCHUNK else n - w;
      if Refused(Most(size, off + w), off + w, c) then w else Reach(size, off, n, w + c)
  }

  /** Whether there are blocks for all that filewrite writes. */
  ghost predicate Suffices(sb: Super, j: Write, n: nat) {
    && j.i in j.inodes && |j.inodes[j.i].addrs| == NDIRECT + 1 && j.off <= j.inodes[j.i].size
    && var hi := Hi(j.off, Reach(j.inodes[j.i].size, j.off, n, 0));
    && hi <= MAXFILE && |j.owner| + Need(j.disk, j.inodes[j.i], j.off / BSIZE, hi) <= sb.size
  }

  /** Of n bytes w are written, with the blocks they need; filewrite will write as many as it
      would have from the start. */
  ghost predicate OnWay(sb: Super, j: Write, disk: Disk, inodes: Inodes, owner: Owners, n: nat, w: nat) {
    && w <= n && j.i in j.inodes && j.i in inodes
    && var was := j.inodes[j.i];
    && if j.off <= was.size then
         && j.Has() && inodes[j.i].size == Most(was.size, j.off + w) && Hi(j.off, w) <= MAXFILE
         && Laid(sb, j, disk, inodes[j.i], owner, Hi(j.off, w)) && Reach(was.size, j.off, n, w) == Reach(was.size, j.off, n, 0)
       else inodes == j.inodes && w == 0
  }

  lemma OnWayStart(sb: Super, j: Write, n: nat)
    requires Repr(sb, j.disk, j.inodes, j.owner) && j.i in j.inodes
    ensures OnWay(sb, j, j.disk, j.inodes, j.owner, n, 0)
  {
    assert FileOk(j.disk, j.owner, j.i, j.inodes[j.i]);
    if j.off <= j.inodes[j.i].size {
      var lo := LoggedStart(sb, j, {});
    }
  }

  lemma OnWayNext(sb: Super, j: Write, j1: Write, disk: Disk, inodes: Inodes, owner: Owners, n: nat, w: nat, w': nat)
    requires w < n && w' == w + (if n - w > MAXCHUNK then MAXCHUNK else n - w) && j1.i == j.i && j1.off == j.off + w
    requires OnWay(sb, j, j1.disk, j1.inodes, j1.owner, n, w) && !Refused(j1.inodes[j.i].size, j1.off, w' - w)
    requires j1.Has() && j.i in inodes && inodes[j.i].size == Most(j1.inodes[j.i].size, j.off + w')
    requires Hi(j.off, w') <= MAXFILE && Laid(sb, j1, disk, inodes[j.i], owner, Hi(j.off, w'))
    ensures OnWay(sb, j, disk, inodes, owner, n, w')
  {
    HiNext(j.off, w, w', j1.off, w' - w);
    LaidTrans(sb, j, j1, disk, inodes[j.i], owner, Hi(j.off, w), Hi(j.off, w'));
    ReachNext(j.inodes[j.i].size, j.off, n, w, w');
  }

  lemma ReachNext(size: nat, off: nat, n: nat, w: nat, w': nat)
    requires w < n && w' == w + (if n - w > MAXCHUNK then MAXCHUNK else n - w)
    requires !Refused(Most(size, off + w), off + w, w' - w)
    ensures Reach(size, off, n, w) == Reach(size, off, n, w')
  {
  }

  /** Where blocks run out, they would not have sufficed. */
  lemma RunsOut(sb: Super, j: Write, disk: Disk, inodes: Inodes, owner: Owners, n: nat, w: nat, w': nat, off: nat, c: nat)
    requires w < n && w' == w + (if n - w > MAXCHUNK then MAXCHUNK else n - w) && c == w' - w && off == j.off + w
    requires OnWay(sb, j, disk, inodes, owner, n, w) && !Refused(inodes[j.i].size, off, c)
    requires |inodes[j.i].addrs| == NDIRECT + 1 && Hi(off, c) <= MAXFILE
    requires sb.size < |owner| + Need(disk, inodes[j.i], off / BSIZE, Hi(off, c))
    ensures j.off <= j.inodes[j.i].size && !Suffices(sb, j, n)
  {
    HiNext(j.off, w, w', off, c);
    LaidNeed(sb, j, disk, inodes[j.i], owner, Hi(j.off, w), off / BSIZE, Hi(off, c));
    ReachNext(j.inodes[j.i].size, j.off, n, w, w');
    MoreNeeded(sb, j, n, w');
  }

  lemma MoreNeeded(sb: Super, j: Write, n: nat, m: nat)
    requires j.i in j.inodes && |j.inodes[j.i].addrs| == NDIRECT + 1 && j.off <= j.inodes[j.i].size
    requires m <= Reach(j.inodes[j.i].size, j.off, n, 0) && Hi(j.off, m) <= MAXFILE
    requires sb.size < |j.owner| + Need(j.disk, j.inodes[j.i], j.off / BSIZE, Hi(j.off, m))
    ensures !Suffices(sb, j, n)
  {
    var hi := Hi(j.off, Reach(j.inodes[j.i].size, j.off, n, 0));
    HiMore(j.off, m, Reach(j.inodes[j.i].size, j.off, n, 0));
    if hi <= MAXFILE {
      NeedBounds(j.disk, j.inodes[j.i], j.off / BSIZE, Hi(j.off, m), hi);
    }
  }

  lemma HiMore(off: nat, m: nat, n: nat)
    requires m <= n
    ensures off / BSIZE <= Hi(off, m) <= Hi(off, n)
  {
  }

  /** Where they do not, they did. */
  lemma Ended(sb: Super, j: Write, disk: Disk, inodes: Inodes, owner: Owners, n: nat, w: nat)
    requires OnWay(sb, j, disk, inodes, owner, n, w) && Repr(sb, disk, inodes, owner)
    requires w == n || Refused(inodes[j.i].size, j.off + w, if n - w > MAXCHUNK then MAXCHUNK else n - w)
    ensures if j.off <= j.inodes[j.i].size then Suffices(sb, j, n) && w == Reach(j.inodes[j.i].size, j.off, n, 0) else w == 0
  {
    if j.off <= j.inodes[j.i].size {
      FreePlusOwned(sb, disk, inodes, owner);
    }
  }

  /** Still no hole; and if the inode on disk was the one in memory, d0, it still is, now d. */
  ghost predicate InStep(sb: Super, i: nat, disk0: Disk, d0: Dinode, disk: Disk, d: Dinode) {
    HoleFree(disk, d.ino) && (OnDisk(sb, disk0, i) == d0 ==> OnDisk(sb, disk, i) == d)
  }

  ghost predicate AllWithin(logs: seq<set<nat>>) {
    forall t :: 0 <= t < |logs| ==> |logs[t]| <= MAXOPBLOCKS
  }

  /** One transaction more; if a premise holds throughout, the bound does. */
  lemma WithinMore(p: bool, logs: seq<set<nat>>, log: set<nat>)
    requires p ==> AllWithin(logs) && |log| <= MAXOPBLOCKS
    ensures p ==> AllWithin(logs + [log])
  {
  }

  lemma RoundEnd(sb: Super, j: Write, j1: Write, disk: Disk, inodes: Inodes, owner: Owners, src: Bytes, i: nat, i': nat,
                 c: Bytes, log: set<nat>)
    requires i < i' <= |src| && c == src[i..i'] && j1.i == j.i && j1.off == j.off + i
    requires Done(sb, j, j1.disk, j1.inodes, j1.owner, src[..i]) && Wrote(sb, j1, disk, inodes, owner, c, {}, log)
    requires Owned(sb, j.disk, j.inodes, j.owner)
    ensures Done(sb, j, disk, inodes, owner, src[..i'])
  {
    DoneNext(sb, j, j1.disk, j1.inodes, j1.owner, disk, inodes, owner, src, i, i');
  }

  lemma RoundOnWay(sb: Super, j: Write, j1: Write, disk: Disk, inodes: Inodes, owner: Owners, n: nat, i: nat, i': nat,
                   c: Bytes, log: set<nat>)
    requires i < n && i' == i + (if n - i > MAXCHUNK then MAXCHUNK else n - i) && |c| == i' - i
    requires j1.i == j.i && j1.off == j.off + i && OnWay(sb, j, j1.disk, j1.inodes, j1.owner, n, i)
    requires !Refused(j1.inodes[j.i].size, j1.off, |c|) && Wrote(sb, j1, disk, inodes, owner, c, {}, log)
    ensures OnWay(sb, j, disk, inodes, owner, n, i')
  {
    HiNext(j.off, i, i', j1.off, |c|);
    OnWayNext(sb, j, j1, disk, inodes, owner, n, i, i');
  }

  lemma RoundSolid(sb: Super, j: Write, disk: Disk, inodes: Inodes, owner: Owners, c: Bytes, log: set<nat>, d0: Dinode,
                   d: Dinode)
    requires |c| > 0 && Wrote(sb, j, disk, inodes, owner, c, {}, log)
    requires Recorded(sb, j, disk, |c|, d0, d) && d0.ino == j.inodes[j.i] && d.ino == inodes[j.i]
    requires StartThere(j.disk, j.inodes[j.i], j.off) ==> |log| <= MAXOPBLOCKS
    ensures HoleFree(j.disk, d0.ino) ==> InStep(sb, j.i, j.disk, d0, disk, d) && |log| <= MAXOPBLOCKS
  {
    if HoleFree(j.disk, d0.ino) {
      SolidWrite(sb, j, disk, inodes, owner, c);
    }
  }
}
