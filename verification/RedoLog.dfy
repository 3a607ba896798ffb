/**
 The loops of the redo log (log.c) on the disk: write_log, write_head, install_trans,
 commit, recover_from_log and log_write.

 `trace` keeps every image the disk has had, one for each block write, since a crash may
 come after any of them.  Module Storage has the same code as steps, with the processes that
 run beside it.
 */
module RedoLog {
  import opened Common
  import Log
  import Storage

  type Block = Storage.Block
  type Layout = Storage.Layout

  type Disk = seq<Block>

  function Slot(lay: Layout, i: nat): nat {
    lay.start + 1 + i
  }

  /** A list of home blocks that fits the log. */
  ghost predicate ListOk(lay: Layout, h: seq<nat>) {
    |h| <= LOGSIZE && |h| < lay.nlog && Distinct(h) && forall i :: 0 <= i < |h| ==> lay.Home(h[i])
  }

  ghost predicate DiskOk(lay: Layout, d: Disk) {
    lay.Valid() && |d| == lay.size && Storage.HeadOk(d[lay.start]) && ListOk(lay, Storage.Head(d[lay.start]))
  }

  /** The first n blocks of the list copied from the log to where they belong. */
  function Installed(lay: Layout, d: Disk, h: seq<nat>, n: nat): (r: Disk)
    requires lay.Valid() && |d| == lay.size && n <= |h| < lay.nlog && forall i :: 0 <= i < |h| ==> lay.Home(h[i])
    ensures |r| == |d|
  {
    if n == 0 then d else Installed(lay, d, h, n - 1)[h[n - 1] := d[Slot(lay, n - 1)]]
  }

  /** What recovery makes of a disk. */
  function Recovered(lay: Layout, d: Disk): Disk
    requires DiskOk(lay, d)
  {
    var h := Storage.Head(d[lay.start]);
    Installed(lay, d, h, |h|)
  }

  /** The same files. */
  ghost predicate SameHome(lay: Layout, d: Disk, d': Disk) {
    |d| == |d'| == lay.size && forall b :: 0 <= b < lay.size && lay.Home(b) ==> d[b] == d'[b]
  }

  lemma {:induction false} InstalledAt(lay: Layout, d: Disk, h: seq<nat>, n: nat)
    requires lay.Valid() && |d| == lay.size && ListOk(lay, h) && n <= |h|
    ensures forall i :: 0 <= i < n ==> Installed(lay, d, h, n)[h[i]] == d[Slot(lay, i)]
    ensures forall b :: 0 <= b < lay.size && b !in h[..n] ==> Installed(lay, d, h, n)[b] == d[b]
  {
    if n > 0 {
      InstalledAt(lay, d, h, n - 1);
      assert h[..n] == h[..n - 1] + [h[n - 1]];
    }
  }

  lemma InstalledAll(lay: Layout, d: Disk, h: seq<nat>)
    requires lay.Valid() && |d| == lay.size && ListOk(lay, h)
    ensures forall i :: 0 <= i < |h| ==> Installed(lay, d, h, |h|)[h[i]] == d[Slot(lay, i)]
    ensures forall b :: 0 <= b < lay.size && b !in h ==> Installed(lay, d, h, |h|)[b] == d[b]
  {
    InstalledAt(lay, d, h, |h|);
    assert h[..|h|] == h;
  }

  /** The files after a transaction: the logged blocks as the cache has them. */
  ghost predicate Committed(lay: Layout, d: Disk, lh: seq<nat>, cache: map<nat, Block>, d': Disk) {
    && |d| == |d'| == lay.size && (forall i :: 0 <= i < |lh| ==> lh[i] in cache)
    && (forall i :: 0 <= i < |lh| && lh[i] < lay.size ==> d'[lh[i]] == cache[lh[i]])
    && (forall b :: 0 <= b < lay.size && lay.Home(b) && b !in lh ==> d'[b] == d[b])
  }

  /** The header says that the log is empty. */
  ghost predicate Cleared(lay: Layout, d: Disk) {
    lay.Valid() && |d| == lay.size && Storage.HeadOk(d[lay.start]) && Storage.Head(d[lay.start]) == []
  }

  /** With an empty header recovery changes nothing. */
  lemma RecoveredEmpty(lay: Layout, d: Disk)
    requires Cleared(lay, d)
    ensures DiskOk(lay, d) && Recovered(lay, d) == d
  {
  }

  /** With the header written, from the log as it was, recovery completes the transaction. */
  lemma RecoveredLogged(lay: Layout, d0: Disk, lh: seq<nat>, cache: map<nat, Block>, d: Disk)
    requires lay.Valid() && |d0| == |d| == lay.size && ListOk(lay, lh)
    requires Storage.HeadOk(d[lay.start]) && Storage.Head(d[lay.start]) == lh
    requires forall i :: 0 <= i < |lh| ==> lh[i] in cache && d[Slot(lay, i)] == cache[lh[i]]
    requires forall b :: 0 <= b < lay.size && lay.Home(b) && b !in lh ==> d[b] == d0[b]
    ensures DiskOk(lay, d) && Committed(lay, d0, lh, cache, Recovered(lay, d))
  {
    InstalledAll(lay, d, lh);
  }

  /** The images from a to b recover to the files of d0. */
  ghost predicate AllOld(lay: Layout, d0: Disk, trace: seq<Disk>, a: nat, b: nat) {
    forall k :: a <= k < b && k < |trace| ==> DiskOk(lay, trace[k]) && SameHome(lay, d0, Recovered(lay, trace[k]))
  }

  /** The images from a on recover to the files after the transaction. */
  ghost predicate AllNew(lay: Layout, d0: Disk, lh: seq<nat>, cache: map<nat, Block>, trace: seq<Disk>, a: nat) {
    forall k :: a <= k < |trace| ==> DiskOk(lay, trace[k]) && Committed(lay, d0, lh, cache, Recovered(lay, trace[k]))
  }

  /** More images that all recover to the same committed files. */
  lemma NewWhile(lay: Layout, d0: Disk, lh: seq<nat>, cache: map<nat, Block>, trace: seq<Disk>, trace': seq<Disk>,
                 goal: Disk, a: nat)
    requires AllNew(lay, d0, lh, cache, trace, a) && Extends(trace, trace')
    requires Committed(lay, d0, lh, cache, goal)
    requires AllTo(lay, goal, trace', |trace|)
    ensures AllNew(lay, d0, lh, cache, trace', a)
  {
    forall k | a <= k < |trace'| ensures DiskOk(lay, trace'[k]) && Committed(lay, d0, lh, cache, Recovered(lay, trace'[k])) {
      if k < |trace| {
        assert trace'[k] == trace'[..|trace|][k];
      }
    }
  }

  /** The images from a on recover to goal. */
  ghost predicate AllTo(lay: Layout, goal: Disk, trace: seq<Disk>, a: nat) {
    forall k :: a <= k < |trace| ==> DiskOk(lay, trace[k]) && Recovered(lay, trace[k]) == goal
  }

  lemma AllToMore(lay: Layout, goal: Disk, trace0: seq<Disk>, trace: seq<Disk>, d: Disk)
    requires Extends(trace0, trace) && AllTo(lay, goal, trace, |trace0|) && DiskOk(lay, d) && Recovered(lay, d) == goal
    ensures Extends(trace0, trace + [d]) && AllTo(lay, goal, trace + [d], |trace0|)
  {
    ExtendsMore(trace0, trace, d);
  }

  /** The images so far, and then more. */
  ghost predicate Extends(trace0: seq<Disk>, trace: seq<Disk>) {
    |trace0| <= |trace| && trace[..|trace0|] == trace0
  }

  lemma ExtendsMore(trace0: seq<Disk>, trace: seq<Disk>, d: Disk)
    requires Extends(trace0, trace)
    ensures Extends(trace0, trace + [d])
  {
    assert (trace + [d])[..|trace0|] == trace[..|trace0|];
  }

  lemma OldWhile(lay: Layout, d0: Disk, trace: seq<Disk>, trace': seq<Disk>, a: nat)
    requires AllOld(lay, d0, trace, a, |trace|) && Extends(trace, trace')
    ensures AllOld(lay, d0, trace', a, |trace|)
  {
    forall k | a <= k < |trace| ensures trace'[k] == trace[k] {
      assert trace'[k] == trace'[..|trace|][k];
    }
  }

  class Machine {
    const lay: Layout
    var disk: Disk
    var cache: map<nat, Block>
    var dirty: set<nat>
    var lh: seq<nat>
    ghost var trace: seq<Disk>

    ghost predicate Valid()
      reads this
    {
      lay.Valid() && |disk| == lay.size && ListOk(lay, lh)
    }

    /** bwrite: one block to the disk, in one go. */
    method Bwrite(b: nat, x: Block)
      requires b < |disk|
      modifies this`disk, this`trace, this`dirty
      ensures disk == old(disk)[b := x] && trace == old(trace) + [disk] && dirty == old(dirty) - {b}
    {
      disk := disk[b := x];
      dirty := dirty - {b};
      trace := trace + [disk];
    }

    /** write_log.  Until the header is written the disk still stands for the old files. */
    method WriteLog()
      requires Valid() && Cleared(lay, disk) && forall i :: 0 <= i < |lh| ==> lh[i] in cache
      modifies this`disk, this`trace, this`dirty
      ensures Valid() && Cleared(lay, disk) && SameHome(lay, old(disk), disk)
      ensures forall i :: 0 <= i < |lh| ==> disk[Slot(lay, i)] == cache[lh[i]]
      ensures Extends(old(trace), trace)
      ensures AllOld(lay, old(disk), trace, |old(trace)|, |trace|)
    {
      var tail := 0;
      while tail < |lh|
        invariant tail <= |lh| && |disk| == lay.size && Cleared(lay, disk) && SameHome(lay, old(disk), disk)
        invariant forall i :: 0 <= i < tail ==> disk[Slot(lay, i)] == cache[lh[i]]
        invariant Extends(old(trace), trace)
        invariant AllOld(lay, old(disk), trace, |old(trace)|, |trace|)
      {
        Bwrite(Slot(lay, tail), cache[lh[tail]]);
        RecoveredEmpty(lay, disk);
        tail := tail + 1;
      }
    }

    /** write_head, with n block numbers from memory. */
    method WriteHead()
      requires Valid()
      modifies this`disk, this`trace, this`dirty
      ensures Valid() && disk == old(disk)[lay.start := disk[lay.start]]
      ensures DiskOk(lay, disk) && Storage.Head(disk[lay.start]) == lh
      ensures trace == old(trace) + [disk]
    {
      Storage.HeadRoundTrip(disk[lay.start], lh);
      Bwrite(lay.start, Storage.PutHead(disk[lay.start], lh));
    }

    /** install_trans.  Recovery from any image on the way gives what it would have given at
        the start. */
    method InstallTrans()
      requires Valid() && DiskOk(lay, disk) && Storage.Head(disk[lay.start]) == lh
      modifies this`disk, this`trace, this`dirty
      ensures Valid() && DiskOk(lay, disk) && Storage.Head(disk[lay.start]) == lh && disk == Recovered(lay, old(disk))
      ensures Extends(old(trace), trace)
      ensures AllTo(lay, Recovered(lay, old(disk)), trace, |old(trace)|)
    {
      var tail := 0;
      ghost var goal := Recovered(lay, disk);
      while tail < |lh|
        invariant tail <= |lh| && disk == Installed(lay, old(disk), lh, tail)
        invariant DiskOk(lay, disk) && Storage.Head(disk[lay.start]) == lh
        invariant Extends(old(trace), trace)
        invariant AllTo(lay, goal, trace, |old(trace)|)
      {
        InstallNext(lay, old(disk), lh, tail);
        AllToMore(lay, goal, old(trace), trace, disk[lh[tail] := disk[Slot(lay, tail)]]);
        Bwrite(lh[tail], disk[Slot(lay, tail)]);
        tail := tail + 1;
      }
    }

    /** commit, once the log holds the blocks: it is done with the first write. */
    method HeadAndInstall(ghost d0: Disk)
      requires Valid() && SameHome(lay, d0, disk) && forall i :: 0 <= i < |lh| ==>
            lh[i] in cache && disk[Slot(lay, i)] == cache[lh[i]]
      modifies this`disk, this`trace, this`dirty
      ensures Valid() && Committed(lay, d0, lh, cache, disk)
      ensures Extends(old(trace), trace) && AllNew(lay, d0, lh, cache, trace, |old(trace)|)
    {
      WriteHead();
      RecoveredLogged(lay, d0, lh, cache, disk);
      ghost var goal, t1 := Recovered(lay, disk), trace;
      InstallTrans();
      NewWhile(lay, d0, lh, cache, t1, trace, goal, |old(trace)|);
    }

    /** The last write clears the log. */
    method ClearLog(ghost d0: Disk, ghost h: seq<nat>, ghost a: nat)
      requires Valid() && lh == [] && ListOk(lay, h) && Committed(lay, d0, h, cache, disk) && AllNew(lay, d0, h, cache, trace, a)
      modifies this`disk, this`trace, this`dirty
      ensures Valid() && Cleared(lay, disk) && Committed(lay, d0, h, cache, disk)
      ensures trace == old(trace) + [disk] && AllNew(lay, d0, h, cache, trace, a)
    {
      ghost var d, t := disk, trace;
      WriteHead();
      RecoveredEmpty(lay, disk);
      InstalledHome(lay, d, disk);
      CommittedSame(lay, d0, h, cache, d, disk);
      NewWhile(lay, d0, h, cache, t, trace, disk, a);
    }

    /** commit.  Every image the disk goes through recovers to the files before the
        transaction, up to some write, and from that write on to the files after it. */
    method Commit() returns (ghost at: nat)
      requires Valid() && Cleared(lay, disk) && forall i :: 0 <= i < |lh| ==> lh[i] in cache
      modifies this`disk, this`trace, this`dirty, this`lh
      ensures Valid() && lh == [] && Cleared(lay, disk) && Committed(lay, old(disk), old(lh), cache, disk)
      ensures |old(trace)| <= at <= |trace| && Extends(old(trace), trace)
      ensures AllOld(lay, old(disk), trace, |old(trace)|, at) && AllNew(lay, old(disk), old(lh), cache, trace, at)
    {
      at := |trace|;
      if |lh| > 0 {
        WriteLog();
        at := |trace|;
        ghost var before := trace;
        HeadAndInstall(old(disk));
        lh := [];
        ClearLog(old(disk), old(lh), at);
        OldWhile(lay, old(disk), before, trace, |old(trace)|);
      }
    }

    /** read_head */
    method ReadHead()
      requires DiskOk(lay, disk)
      modifies this`lh
      ensures Valid() && lh == Storage.Head(disk[lay.start])
    {
      lh := Storage.Head(disk[lay.start]);
    }

    /** recover_from_log.  Whenever a crash cuts it short, recovery from there comes to the
        same files. */
    method RecoverFromLog()
      requires DiskOk(lay, disk)
      modifies this`disk, this`trace, this`dirty, this`lh
      ensures Valid() && lh == [] && Cleared(lay, disk) && SameHome(lay, Recovered(lay, old(disk)), disk)
      ensures Extends(old(trace), trace) && AllOld(lay, Recovered(lay, old(disk)), trace, |old(trace)|, |trace|)
    {
      ReadHead();
      InstallTrans();
      ghost var d1, t1 := disk, trace;
      lh := [];
      WriteHead();
      InstalledHome(lay, d1, disk);
      RecoverTrace(lay, d1, old(trace), t1, disk);
    }

    /** log_write: the block is in the list, once, and pinned.  With its list full it panics,
        and so it does outside a transaction. */
    method LogWrite(b: nat, x: Block, outstanding: nat) returns (ok: bool)
      requires Valid() && lay.Home(b)
      modifies this`lh, this`cache, this`dirty
      ensures ok <==> |old(lh)| < LOGSIZE && |old(lh)| < lay.nlog - 1 && outstanding >= 1
      ensures !ok ==> lh == old(lh) && cache == old(cache) && dirty == old(dirty)
      ensures ok ==> Valid() && lh == (if b in old(lh) then old(lh) else old(lh) + [b])
      ensures ok ==> cache == old(cache)[b := x] && dirty == old(dirty) + {b}
    {
      if |lh| >= LOGSIZE || |lh| >= lay.nlog - 1 {
        return false;
      }
      if outstanding < 1 {
        return false;
      }
      var i := 0;
      while i < |lh| && lh[i] != b
        invariant i <= |lh| && b !in lh[..i]
      {
        i := i + 1;
      }
      if i == |lh| {
        lh := lh + [b];
      } else {
        lh := lh[i := b];
      }
      cache := cache[b := x];
      dirty := dirty + {b};
      ok := true;
    }
  }

  lemma InstalledHome(lay: Layout, d: Disk, d': Disk)
    requires lay.Valid() && |d| == |d'| == lay.size && d' == d[lay.start := d'[lay.start]]
    ensures SameHome(lay, d, d')
  {
  }

  lemma CommittedSame(lay: Layout, d: Disk, lh: seq<nat>, cache: map<nat, Block>, d1: Disk, d2: Disk)
    requires Committed(lay, d, lh, cache, d1) && SameHome(lay, d1, d2) && ListOk(lay, lh)
    ensures Committed(lay, d, lh, cache, d2)
  {
    forall i | 0 <= i < |lh| && lh[i] < lay.size ensures d2[lh[i]] == cache[lh[i]] {
      assert lay.Home(lh[i]);
    }
  }

  /** The last image of a recovery, after those that recover to its goal. */
  lemma RecoverTrace(lay: Layout, goal: Disk, t0: seq<Disk>, t1: seq<Disk>, d: Disk)
    requires Extends(t0, t1) && AllTo(lay, goal, t1, |t0|) && Cleared(lay, d) && SameHome(lay, goal, d)
    ensures Extends(t0, t1 + [d]) && AllOld(lay, goal, t1 + [d], |t0|, |t1 + [d]|)
  {
    ExtendsMore(t0, t1, d);
    RecoveredEmpty(lay, d);
    forall k | |t0| <= k < |t1 + [d]|
      ensures DiskOk(lay, (t1 + [d])[k]) && SameHome(lay, goal, Recovered(lay, (t1 + [d])[k]))
    {
      if k < |t1| { assert (t1 + [d])[k] == t1[k]; }
    }
  }

  /** One block more. */
  lemma InstallNext(lay: Layout, d: Disk, h: seq<nat>, n: nat)
    requires DiskOk(lay, d) && n < |h| && Storage.Head(d[lay.start]) == h
    ensures
      var d1 := Installed(lay, d, h, n);
      var d2 := d1[h[n] := d1[Slot(lay, n)]];
      && d2 == Installed(lay, d, h, n + 1) && DiskOk(lay, d2) && Storage.Head(d2[lay.start]) == h
      && Recovered(lay, d2) == Recovered(lay, d)
  {
    InstalledAt(lay, d, h, n);
    InstallAgain(lay, d, h, n + 1);
  }

  /** Installing is the same from the start and from half way. */
  lemma InstallAgain(lay: Layout, d: Disk, h: seq<nat>, n: nat)
    requires DiskOk(lay, d) && n <= |h| && Storage.Head(d[lay.start]) == h
    ensures
      var d' := Installed(lay, d, h, n);
      && Storage.Head(d'[lay.start]) == h && DiskOk(lay, d') && Recovered(lay, d') == Installed(lay, d, h, |h|)
  {
    var d' := Installed(lay, d, h, n);
    InstalledAt(lay, d, h, n);
    InstalledAll(lay, d', h);
    InstalledAll(lay, d, h);
    var a, b := Installed(lay, d', h, |h|), Installed(lay, d, h, |h|);
    forall x | 0 <= x < lay.size ensures a[x] == b[x] {
      if x in h {
        var i :| 0 <= i < |h| && h[i] == x;
        assert a[h[i]] == d'[Slot(lay, i)] && b[h[i]] == d[Slot(lay, i)];
      } else {
        assert x !in h[..n];
      }
    }
  }

  /** What recovery does, block by block, is what module Storage takes it to do. */
  lemma RecoveredIsImage(lay: Layout, d: Disk)
    requires DiskOk(lay, d)
    ensures Storage.Bootable(lay, d) && Storage.Shows(lay, Recovered(lay, d), Storage.Image(lay, d))
  {
    var h := Storage.Head(d[lay.start]);
    forall b | b in h ensures lay.Home(b) {
      var k :| 0 <= k < |h| && h[k] == b;
    }
    Storage.ImageRecovers(lay, d);
    var m, e := Storage.Image(lay, d), Recovered(lay, d);
    InstalledAll(lay, d, h);
    forall b: nat | b < lay.size && lay.Home(b) ensures e[b] == m[b] {
      SameBlock(lay, d, h, m, e, b);
    }
  }

  lemma SameBlock(lay: Layout, d: Disk, h: seq<nat>, m: map<nat, Block>, e: Disk, b: nat)
    requires lay.Valid() && |d| == |e| == lay.size && ListOk(lay, h) && b < lay.size && lay.Home(b) && b in m
    requires forall k :: 0 <= k < |h| ==> h[k] in m && m[h[k]] == d[lay.start + 1 + k]
    requires b !in h ==> m[b] == d[b] == e[b]
    requires forall k :: 0 <= k < |h| ==> e[h[k]] == d[Slot(lay, k)]
    ensures e[b] == m[b]
  {
    if b in h {
      var k :| 0 <= k < |h| && h[k] == b;
      assert e[h[k]] == d[Slot(lay, k)];
    }
  }
}
