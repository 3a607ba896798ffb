/**
 How many blocks a write logs (fs.c): the number is given by the file, the write and the first
 free blocks, before the write.
 */
module WriteCount {
  import opened Blocks
  import opened BlockMap
  import opened FileData

  // ----- the first free blocks --------------------------------------------

  ghost function FreeSet(sb: Super, disk: Disk, n: nat): set<nat> {
    set b: nat | b < n && !InUse(sb, disk, b)
  }

  lemma {:induction false} FreeSetCount(sb: Super, disk: Disk, n: nat)
    ensures |FreeSet(sb, disk, n)| == FreeBelow(sb, disk, n)
  {
    if n == 0 {
      assert FreeSet(sb, disk, n) == {};
    } else {
      FreeSetCount(sb, disk, n - 1);
      assert FreeSet(sb, disk, n) == FreeSet(sb, disk, n - 1) + if InUse(sb, disk, n - 1) then {} else {n - 1};
    }
  }

  /** The first k free blocks: those with fewer than k before them. */
  ghost function FirstFree(sb: Super, disk: Disk, k: nat): set<nat> {
    FirstBelow(sb, disk, k, sb.size)
  }

  ghost function FirstBelow(sb: Super, disk: Disk, k: nat, n: nat): set<nat> {
    set b: nat | b < n && !InUse(sb, disk, b) && FreeBelow(sb, disk, b) < k
  }

  lemma {:induction false} FirstBelowCount(sb: Super, disk: Disk, k: nat, n: nat)
    ensures |FirstBelow(sb, disk, k, n)| <= k && |FirstBelow(sb, disk, k, n)| <= FreeBelow(sb, disk, n)
  {
    if n == 0 {
      assert FirstBelow(sb, disk, k, n) == {};
    } else {
      FirstBelowCount(sb, disk, k, n - 1);
      assert FirstBelow(sb, disk, k, n) ==
        FirstBelow(sb, disk, k, n - 1) + if !InUse(sb, disk, n - 1) && FreeBelow(sb, disk, n - 1) < k then {n - 1} else {};
    }
  }

  /** They lie under at most k bitmap blocks. */
  lemma FirstFreeCount(sb: Super, disk: Disk, k: nat)
    ensures |BitmapOf(sb, FirstFree(sb, disk, k))| <= |FirstFree(sb, disk, k)| <= k
  {
    FirstBelowCount(sb, disk, k, sb.size);
    BitmapOfCount(sb, FirstFree(sb, disk, k));
  }

  /** Blocks taken one by one from the low end are the first free ones. */
  lemma TakenAreFirst(sb: Super, disk: Disk, inodes: Inodes, owner: Owners, inodes': Inodes, disk': Disk, owner': Owners)
    requires Repr(sb, disk, inodes, owner) && Owned(sb, disk', inodes', owner')
    requires (forall b :: b in owner ==> b in owner') && FirstFit(owner, owner')
    ensures owner'.Keys - owner.Keys == FirstFree(sb, disk, |owner'.Keys - owner.Keys|)
  {
    var t := owner'.Keys - owner.Keys;
    forall b: nat ensures b in t <==> b in FirstFree(sb, disk, |t|) {
      if b in t {
        TakenIsFirst(sb, disk, inodes, owner, inodes', disk', owner', b);
      } else if b < sb.size && !InUse(sb, disk, b) {
        assert BitOk(sb, disk, owner, b);
        LeftIsLater(sb, disk, inodes, owner, inodes', disk', owner', b);
      }
    }
  }

  lemma TakenIsFirst(sb: Super, disk: Disk, inodes: Inodes, owner: Owners, inodes': Inodes, disk': Disk, owner': Owners,
                     b: nat)
    requires Repr(sb, disk, inodes, owner) && Owned(sb, disk', inodes', owner') && FirstFit(owner, owner')
    requires b in owner' && b !in owner
    ensures b < sb.size && !InUse(sb, disk, b) && FreeBelow(sb, disk, b) < |owner'.Keys - owner.Keys|
  {
    var t := owner'.Keys - owner.Keys;
    assert OwnerOk(sb, disk', inodes', owner', b);
    assert BitOk(sb, disk, owner, b);
    assert UsedBelow(owner', b);
    forall c | c in FreeSet(sb, disk, b) ensures c in t {
      assert BitOk(sb, disk, owner, c);
    }
    FreeSetCount(sb, disk, b);
    SubsetCount(FreeSet(sb, disk, b) + {b}, t);
  }

  lemma LeftIsLater(sb: Super, disk: Disk, inodes: Inodes, owner: Owners, inodes': Inodes, disk': Disk, owner': Owners,
                    b: nat)
    requires Repr(sb, disk, inodes, owner) && Owned(sb, disk', inodes', owner') && FirstFit(owner, owner')
    requires b !in owner'
    ensures FreeBelow(sb, disk, b) >= |owner'.Keys - owner.Keys|
  {
    var t := owner'.Keys - owner.Keys;
    forall c | c in t ensures c in FreeSet(sb, disk, b) {
      assert UsedBelow(owner', c);
      assert OwnerOk(sb, disk', inodes', owner', c);
      assert BitOk(sb, disk, owner, c);
    }
    FreeSetCount(sb, disk, b);
    SubsetCount(t, FreeSet(sb, disk, b));
  }

  lemma {:induction false} BitmapOfCount(sb: Super, e: set<nat>)
    ensures |BitmapOf(sb, e)| <= |e|
    decreases e
  {
    if x :| x in e {
      BitmapOfCount(sb, e - {x});
      assert BitmapOf(sb, e) == BitmapOf(sb, e - {x}) + {BBlock(sb, x)};
    } else {
      assert BitmapOf(sb, e) == {};
    }
  }

  // ----- the number -------------------------------------------------------

  /** A block behind the block of addresses is missing. */
  predicate Through(disk: Disk, ino: Inode, lo: nat, hi: nat)
    requires |ino.addrs| == NDIRECT + 1 && hi <= MAXFILE
  {
    exists k :: lo <= k < hi && NDIRECT <= k && Addr(disk, ino, k) == 0
  }

  /** What n bytes at off log: each block they reach, the block of addresses if an entry in it
      is filled in, the bitmap blocks of what is taken, and the inode if the file grows. */
  ghost function LogSize(sb: Super, disk: Disk, ino: Inode, off: nat, n: nat): int
    requires |ino.addrs| == NDIRECT + 1 && Hi(off, n) <= MAXFILE
  {
    var lo, hi := off / BSIZE, Hi(off, n);
    hi - lo + (if Through(disk, ino, lo, hi) then 1 else 0) +
    |BitmapOf(sb, FirstFree(sb, disk, Need(disk, ino, lo, hi)))| + if Grows(ino, off, n) then 1 else 0
  }

  // ----- the blocks -------------------------------------------------------

  /** The new blocks among lo to hi. */
  ghost function NewData(disk: Disk, ino: Inode, disk': Disk, ino': Inode, lo: nat, hi: nat): set<nat>
    requires |ino.addrs| == |ino'.addrs| == NDIRECT + 1 && hi <= MAXFILE
    decreases hi
  {
    if hi <= lo then {}
    else NewData(disk, ino, disk', ino', lo, hi - 1) + if Addr(disk, ino, hi - 1) == 0 then {Addr(disk', ino', hi - 1)} else {}
  }

  /** And the block of addresses if it is. */
  ghost function Taken(disk: Disk, ino: Inode, disk': Disk, ino': Inode, lo: nat, hi: nat): set<nat>
    requires |ino.addrs| == |ino'.addrs| == NDIRECT + 1 && hi <= MAXFILE
  {
    NewData(disk, ino, disk', ino', lo, hi) + if NeedsIndirect(ino, lo, hi) then {ino'.addrs[NDIRECT]} else {}
  }

  lemma ThroughNext(disk: Disk, ino: Inode, lo: nat, hi: nat)
    requires |ino.addrs| == NDIRECT + 1 && lo < hi <= MAXFILE
    ensures Through(disk, ino, lo, hi) <==>
            Through(disk, ino, lo, hi - 1) || (hi - 1 >= NDIRECT && Addr(disk, ino, hi - 1) == 0)
    ensures NeedsIndirect(ino, lo, hi) <==> Through(disk, ino, lo, hi) && ino.addrs[NDIRECT] == 0
  {
    if NeedsIndirect(ino, lo, hi) {
      assert Addr(disk, ino, hi - 1) == 0;
    }
  }

  /** The bitmap blocks of what the last block takes. */
  ghost function LastBits(sb: Super, disk: Disk, ino: Inode, disk': Disk, ino': Inode, lo: nat, hi: nat): set<nat>
    requires |ino.addrs| == |ino'.addrs| == NDIRECT + 1 && lo < hi <= MAXFILE
  {
    if Addr(disk, ino, hi - 1) != 0 then {}
    else {BBlock(sb, Addr(disk', ino', hi - 1))} + if NeedsIndirect(ino, lo, hi) then {BBlock(sb, ino'.addrs[NDIRECT])} else {}
  }

  lemma BitsNext(sb: Super, disk: Disk, ino: Inode, disk': Disk, ino': Inode, lo: nat, hi: nat)
    requires |ino.addrs| == |ino'.addrs| == NDIRECT + 1 && lo < hi <= MAXFILE
    ensures BitmapOf(sb, Taken(disk, ino, disk', ino', lo, hi)) ==
            BitmapOf(sb, Taken(disk, ino, disk', ino', lo, hi - 1)) + LastBits(sb, disk, ino, disk', ino', lo, hi)
  {
    var d, a := ino'.addrs[NDIRECT], Addr(disk', ino', hi - 1);
    var t, t' := Taken(disk, ino, disk', ino', lo, hi - 1), Taken(disk, ino, disk', ino', lo, hi);
    ThroughNext(disk, ino, lo, hi);
    if Addr(disk, ino, hi - 1) != 0 {
      assert t' == t;
    } else if NeedsIndirect(ino, lo, hi) {
      assert t' == t + {a, d};
    } else {
      assert t' == t + {a};
    }
  }

  lemma Regroup(w: set<nat>, d: set<nat>, b: set<nat>, x: set<nat>, a: nat, l: set<nat>, m: set<nat>, x': set<nat>)
    requires w == d + b + x && m <= l && l <= {a} + m + x' && x <= x' <= x + l
    ensures w + {a} + l == (d + {a}) + (b + m) + x'
  {
  }

  ghost function ThroughLog(disk: Disk, ino: Inode, ino': Inode, lo: nat, hi: nat): set<nat>
    requires |ino.addrs| == |ino'.addrs| == NDIRECT + 1 && hi <= MAXFILE
  {
    if Through(disk, ino, lo, hi) then {ino'.addrs[NDIRECT]} else {}
  }

  /** The blocks a write logs, by kind. */
  lemma {:induction false} WriteLogsAre(sb: Super, disk: Disk, ino: Inode, disk': Disk, ino': Inode, lo: nat, hi: nat)
    requires |ino.addrs| == |ino'.addrs| == NDIRECT + 1 && hi <= MAXFILE
    ensures WriteLogs(sb, disk, ino, disk', ino', lo, hi) ==
            DataLogs(disk', ino', lo, hi) + BitmapOf(sb, Taken(disk, ino, disk', ino', lo, hi)) +
            ThroughLog(disk, ino, ino', lo, hi)
    decreases hi
  {
    if lo < hi {
      var a := Addr(disk', ino', hi - 1);
      WriteLogsAre(sb, disk, ino, disk', ino', lo, hi - 1);
      ThroughNext(disk, ino, lo, hi);
      BitsNext(sb, disk, ino, disk', ino', lo, hi);
      Regroup(WriteLogs(sb, disk, ino, disk', ino', lo, hi - 1), DataLogs(disk', ino', lo, hi - 1),
              BitmapOf(sb, Taken(disk, ino, disk', ino', lo, hi - 1)), ThroughLog(disk, ino, ino', lo, hi - 1), a,
              BmapLogs(sb, ino, hi - 1, Addr(disk, ino, hi - 1), a, ino'), LastBits(sb, disk, ino, disk', ino', lo, hi),
              ThroughLog(disk, ino, ino', lo, hi));
    } else {
      assert BitmapOf(sb, {}) == {};
    }
  }

  /** The blocks lo to hi are there and the file's own. */
  ghost predicate AllOwn(disk: Disk, owner: Owners, i: nat, ino: Inode, lo: nat, hi: nat) {
    && |ino.addrs| == NDIRECT + 1 && lo <= hi <= MAXFILE
    && (forall k :: lo <= k < hi ==> Addr(disk, ino, k) in owner && owner[Addr(disk, ino, k)] == Data(i, k))
  }

  /** Each block of a file is counted once. */
  lemma {:induction false} DataCount(disk: Disk, owner: Owners, i: nat, ino: Inode, lo: nat, hi: nat)
    requires AllOwn(disk, owner, i, ino, lo, hi)
    ensures |DataLogs(disk, ino, lo, hi)| == hi - lo
    ensures forall b :: b in DataLogs(disk, ino, lo, hi) ==> b in owner && owner[b].Data? && owner[b].bn < hi
    decreases hi
  {
    if lo < hi {
      DataCount(disk, owner, i, ino, lo, hi - 1);
    }
  }

  lemma {:induction false} NewCount(disk: Disk, ino: Inode, disk': Disk, owner': Owners, i: nat, ino': Inode, lo: nat, hi: nat)
    requires |ino.addrs| == NDIRECT + 1 && AllOwn(disk', owner', i, ino', lo, hi)
    ensures |NewData(disk, ino, disk', ino', lo, hi)| == Missing(disk, ino, lo, hi)
    ensures forall b :: b in NewData(disk, ino, disk', ino', lo, hi) ==> b in owner' && owner'[b].Data? && owner'[b].bn < hi
    decreases hi
  {
    if lo < hi {
      NewCount(disk, ino, disk', owner', i, ino', lo, hi - 1);
      if Addr(disk, ino, hi - 1) == 0 {
        assert NewData(disk, ino, disk', ino', lo, hi) ==
          NewData(disk, ino, disk', ino', lo, hi - 1) + {Addr(disk', ino', hi - 1)};
      }
    }
  }

  lemma OwnThere(disk: Disk, owner: Owners, i: nat, ino: Inode, lo: nat, hi: nat)
    requires FileOk(disk, owner, i, ino) && lo <= hi <= MAXFILE && forall k :: lo <= k < hi ==> Addr(disk, ino, k) != 0
    ensures AllOwn(disk, owner, i, ino, lo, hi)
  {
    forall k | lo <= k < hi ensures Addr(disk, ino, k) in owner && owner[Addr(disk, ino, k)] == Data(i, k) {
      assert BlockOk(disk, owner, i, ino, k);
    }
  }

  /** A new block was free. */
  lemma {:induction false} NewWasFree(sb: Super, j: Write, disk: Disk, inodes: Inodes, owner: Owners, c: Bytes, hi: nat)
    requires j.Valid(sb) && Written(sb, j, disk, inodes, owner, c) && Laid(sb, j, disk, inodes[j.i], owner, Hi(j.off, |c|))
    requires j.off / BSIZE <= hi <= Hi(j.off, |c|)
    ensures NewData(j.disk, j.inodes[j.i], disk, inodes[j.i], j.off / BSIZE, hi) <= owner.Keys - j.owner.Keys
    decreases hi
  {
    if j.off / BSIZE < hi {
      NewWasFree(sb, j, disk, inodes, owner, c, hi - 1);
      if Addr(j.disk, j.inodes[j.i], hi - 1) == 0 {
        WasFree(sb, j, disk, inodes, owner, c, hi - 1);
      }
    }
  }

  lemma WasFree(sb: Super, j: Write, disk: Disk, inodes: Inodes, owner: Owners, c: Bytes, bn: nat)
    requires j.Valid(sb) && Written(sb, j, disk, inodes, owner, c) && bn < MAXFILE && |inodes[j.i].addrs| == NDIRECT + 1
    requires Addr(j.disk, j.inodes[j.i], bn) == 0 && Addr(disk, inodes[j.i], bn) != 0
    ensures Addr(disk, inodes[j.i], bn) in owner && Addr(disk, inodes[j.i], bn) !in j.owner
  {
    var a := Addr(disk, inodes[j.i], bn);
    assert FileOk(disk, owner, j.i, inodes[j.i]) && BlockOk(disk, owner, j.i, inodes[j.i], bn);
    forall b | b in j.owner ensures b != a {
      assert OwnerOk(sb, j.disk, j.inodes, j.owner, b);
    }
  }

  /** What the write took is the new blocks of the file. */
  lemma TakenIsNew(sb: Super, j: Write, disk: Disk, inodes: Inodes, owner: Owners, c: Bytes)
    requires j.Valid(sb) && Written(sb, j, disk, inodes, owner, c) && Laid(sb, j, disk, inodes[j.i], owner, Hi(j.off, |c|))
    ensures
      var lo, hi := j.off / BSIZE, Hi(j.off, |c|);
      && Taken(j.disk, j.inodes[j.i], disk, inodes[j.i], lo, hi) == owner.Keys - j.owner.Keys
      && |owner.Keys - j.owner.Keys| == Need(j.disk, j.inodes[j.i], lo, hi)
  {
    var was, ino, lo, hi := j.inodes[j.i], inodes[j.i], j.off / BSIZE, Hi(j.off, |c|);
    var d, t := ino.addrs[NDIRECT], owner.Keys - j.owner.Keys;
    assert owner.Keys == j.owner.Keys + t;
    assert |t| == |owner| - |j.owner|;
    assert FileOk(disk, owner, j.i, ino);
    OwnThere(disk, owner, j.i, ino, lo, hi);
    NewCount(j.disk, was, disk, owner, j.i, ino, lo, hi);
    NewWasFree(sb, j, disk, inodes, owner, c, hi);
    if NeedsIndirect(was, lo, hi) {
      IndirectThere(disk, ino, lo, hi);
      assert owner[d] == Indirect(j.i);
      forall b | b in j.owner ensures b != d {
        assert OwnerOk(sb, j.disk, j.inodes, j.owner, b);
      }
    }
    SubsetEqual(Taken(j.disk, was, disk, ino, lo, hi), t);
  }

  /** And the first free ones. */
  lemma TakenIs(sb: Super, j: Write, disk: Disk, inodes: Inodes, owner: Owners, c: Bytes)
    requires Repr(sb, j.disk, j.inodes, j.owner) && j.Valid(sb) && Written(sb, j, disk, inodes, owner, c)
    requires Laid(sb, j, disk, inodes[j.i], owner, Hi(j.off, |c|))
    ensures
      var lo, hi := j.off / BSIZE, Hi(j.off, |c|);
      && Taken(j.disk, j.inodes[j.i], disk, inodes[j.i], lo, hi) == owner.Keys - j.owner.Keys
      && owner.Keys - j.owner.Keys == FirstFree(sb, j.disk, Need(j.disk, j.inodes[j.i], lo, hi))
  {
    TakenIsNew(sb, j, disk, inodes, owner, c);
    TakenAreFirst(sb, j.disk, j.inodes, j.owner, inodes, disk, owner);
  }

  /** Blocks of different kinds are different. */
  lemma FourKinds(owner: Owners, e: set<nat>, m: set<nat>, x: set<nat>, y: set<nat>)
    requires forall b :: b in e ==> b in owner && owner[b].Data?
    requires forall b :: b in m ==> b in owner && owner[b] == Meta
    requires forall b :: b in x ==> b in owner && owner[b].Indirect?
    requires forall b :: b in y ==> b in owner && owner[b] == Table
    ensures |e + m + x + y| == |e| + |m| + |x| + |y|
  {
    assert |e + m| == |e| + |m|;
    assert |e + m + x| == |e + m| + |x|;
  }

  lemma WriteLogsCounted(sb: Super, j: Write, disk: Disk, inodes: Inodes, owner: Owners, c: Bytes, y: set<nat>)
    requires Repr(sb, j.disk, j.inodes, j.owner) && j.Valid(sb) && Written(sb, j, disk, inodes, owner, c)
    requires Laid(sb, j, disk, inodes[j.i], owner, Hi(j.off, |c|)) && BitsOk(sb, disk, owner)
    requires forall b :: b in y ==> b == IBlock(sb, j.i)
    ensures
      var was, lo, hi := j.inodes[j.i], j.off / BSIZE, Hi(j.off, |c|);
      |WriteLogs(sb, j.disk, was, disk, inodes[j.i], lo, hi) + y| ==
      hi - lo + |BitmapOf(sb, FirstFree(sb, j.disk, Need(j.disk, was, lo, hi)))| +
      (if Through(j.disk, was, lo, hi) then 1 else 0) + |y|
  {
    var was, ino, lo, hi := j.inodes[j.i], inodes[j.i], j.off / BSIZE, Hi(j.off, |c|);
    var t := owner.Keys - j.owner.Keys;
    TakenIs(sb, j, disk, inodes, owner, c);
    WriteLogsAre(sb, j.disk, was, disk, ino, lo, hi);
    assert FileOk(disk, owner, j.i, ino);
    OwnThere(disk, owner, j.i, ino, lo, hi);
    DataCount(disk, owner, j.i, ino, lo, hi);
    forall b | b in t ensures b < sb.size {
      assert OwnerOk(sb, disk, inodes, owner, b);
    }
    BitmapMeta(sb, disk, owner, t);
    if Through(j.disk, was, lo, hi) {
      ThroughThere(j.disk, was, disk, ino, lo, hi);
    }
    FourKinds(owner, DataLogs(disk, ino, lo, hi), BitmapOf(sb, t), ThroughLog(j.disk, was, ino, lo, hi), y);
  }

  /** The number of blocks a write logs. */
  lemma WroteCount(sb: Super, j: Write, disk: Disk, inodes: Inodes, owner: Owners, c: Bytes, log: set<nat>)
    requires Repr(sb, j.disk, j.inodes, j.owner) && Wrote(sb, j, disk, inodes, owner, c, {}, log)
    ensures |log| == LogSize(sb, j.disk, j.inodes[j.i], j.off, |c|)
  {
    WriteLogsCounted(sb, j, disk, inodes, owner, c, if Grows(j.inodes[j.i], j.off, |c|) then {IBlock(sb, j.i)} else {});
  }

  lemma ThroughThere(disk: Disk, ino: Inode, disk': Disk, ino': Inode, lo: nat, hi: nat)
    requires |ino.addrs| == |ino'.addrs| == NDIRECT + 1 && hi <= MAXFILE && Through(disk, ino, lo, hi)
    requires forall k :: lo <= k < hi ==> Addr(disk', ino', k) != 0
    ensures ino'.addrs[NDIRECT] != 0
  {
    var k :| lo <= k < hi && NDIRECT <= k && Addr(disk, ino, k) == 0;
    assert Addr(disk', ino', k) != 0;
  }
}
