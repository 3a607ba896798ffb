/**
 The file layer in place (fs.c, file.c): balloc, bfree, bmap, itrunc, readi, writei, iupdate
 and filewrite on blocks of bytes.  The ghost arguments `inodes` and `owner` are what module
 BlockMap ties to the disk.
 */
module FileSystem {
  import opened Common
  import opened Blocks
  import opened BlockMap
  import opened FileData
  import opened WriteCount
  import opened ChunkBound

  /** The copy of an inode in memory. */
  class Cached {
    const inum: nat
    var kind: nat
    var major: nat
    var minor: nat
    var nlink: nat
    var size: nat
    var addrs: seq<nat>

    function Value(): Inode
      reads this
    {
      Inode(size, addrs)
    }

    function Whole(): Dinode
      reads this
    {
      Dinode(kind, major, minor, nlink, Value())
    }

    constructor (inum: nat, d: Dinode)
      ensures this.inum == inum && Whole() == d
    {
      this.inum := inum;
      kind, major, minor, nlink, size, addrs := d.kind, d.major, d.minor, d.nlink, d.ino.size, d.ino.addrs;
    }
  }

  class Fs {
    const sb: Super
    var disk: Disk
    ghost var logged: set<nat>     // blocks given to log_write in this operation

    constructor (sb: Super, disk: Disk)
      ensures this.sb == sb && this.disk == disk
    {
      this.sb, this.disk := sb, disk;
    }

    /** balloc's inner loop: the first clear bit of a bitmap block. */
    method Scan(b0: nat, ghost inodes: Inodes, ghost owner: Owners) returns (found: bool, bi: nat)
      requires Repr(sb, disk, inodes, owner) && b0 % BPB == 0 && b0 < sb.size
      ensures bi <= BPB && (forall c :: b0 <= c < b0 + bi ==> c in owner)
      ensures found ==> bi < BPB && b0 + bi < sb.size && b0 + bi !in owner
      ensures !found ==> bi == BPB || b0 + bi == sb.size
    {
      bi := 0;
      while bi < BPB && b0 + bi < sb.size
        invariant bi <= BPB && b0 + bi <= sb.size && forall c :: b0 <= c < b0 + bi ==> c in owner
        decreases BPB - bi
      {
        InBitmapBlock(sb, b0, bi);
        assert BitOk(sb, disk, owner, b0 + bi);
        if !Bit(disk[BBlock(sb, b0)][bi / 8], bi % 8) {
          return true, bi;
        }
        bi := bi + 1;
      }
      found := false;
    }

    /** balloc: the first free block, marked and zeroed.  It fails only if none is free. */
    method Balloc(ghost inodes: Inodes, ghost owner: Owners) returns (ok: bool, b: nat)
      requires Repr(sb, disk, inodes, owner)
      modifies this`disk, this`logged
      ensures ok ==> b < sb.size && b !in owner && UsedBelow(owner, b)
      ensures ok ==> BBlock(sb, b) in old(disk) && |old(disk)[BBlock(sb, b)]| == BSIZE
      ensures ok ==> disk == Allocated(sb, old(disk), b) && logged == old(logged) + {BBlock(sb, b), b}
      ensures !ok ==> disk == old(disk) && logged == old(logged) && UsedBelow(owner, sb.size)
    {
      var b0 := 0;
      while b0 < sb.size
        invariant b0 % BPB == 0 && disk == old(disk) && logged == old(logged)
        invariant forall c :: 0 <= c < b0 && c < sb.size ==> c in owner
        decreases sb.size - b0
      {
        var found, bi := Scan(b0, inodes, owner);
        if found {
          b := b0 + bi;
          InBitmapBlock(sb, b0, bi);
          AllocBits(sb, disk, inodes, owner, b, Meta);
          assert BitOk(sb, disk, owner, b);
          disk := MarkByte(sb, disk, b, OrByte(disk[BBlock(sb, b0)][bi / 8], bi % 8));
          logged := logged + {BBlock(sb, b)};
          disk := disk[b := Zeros()];
          logged := logged + {b};
          return true, b;
        }
        b0 := b0 + BPB;
      }
      ok, b := false, 0;
    }

    /** bmap for a direct block. */
    method BmapDirect(ip: Cached, bn: nat, ghost inodes: Inodes, ghost owner: Owners, ghost i: nat)
      returns (ok: bool, addr: nat, ghost ino': Inode, ghost owner': Owners)
      requires Repr(sb, disk, inodes, owner) && i in inodes && ip.addrs == inodes[i].addrs && bn < NDIRECT
      modifies this`disk, this`logged, ip`addrs
      ensures |inodes[i].addrs| == NDIRECT + 1
      ensures ok ==> Mapped(sb, old(disk), inodes, owner, i, bn, disk, ino', owner') && BitsOk(sb, disk, owner')
      ensures ok ==> ino'.addrs == ip.addrs && addr == ino'.addrs[bn]
      ensures ok ==> |owner'| == |owner| + New(old(disk), inodes[i], bn)
      ensures ok ==> logged == old(logged) + BmapLogs(sb, inodes[i], bn, inodes[i].addrs[bn], addr, ino')
      ensures !ok ==> sb.size < |owner| + New(old(disk), inodes[i], bn)
    {
      assert FileOk(disk, owner, i, inodes[i]);
      ino', owner' := inodes[i], owner;
      assert inodes[i := ino'] == inodes;
      addr := ip.addrs[bn];
      ok := true;
      if addr == 0 {
        ok, addr := Balloc(inodes, owner);
        if ok {
          assert BitOk(sb, old(disk), owner, addr);
          AllocDirect(sb, old(disk), inodes, owner, i, bn, addr);
          AllocKept(sb, old(disk), owner, addr, Data(i, bn), i);
          OwnerCount(owner, addr, Data(i, bn));
          ip.addrs := ip.addrs[bn := addr];
          ino', owner' := PutAddr(inodes[i], bn, addr), owner[addr := Data(i, bn)];
        } else {
          UsedBelowCount(owner, sb.size);
        }
      }
    }

    /** bmap's first step for the others: the block of addresses. */
    method IndirectBlock(ip: Cached, ghost inodes: Inodes, ghost owner: Owners, ghost i: nat)
      returns (ok: bool, d: nat, ghost ino': Inode, ghost owner': Owners)
      requires Repr(sb, disk, inodes, owner) && i in inodes && ip.addrs == inodes[i].addrs
      modifies this`disk, this`logged, ip`addrs
      ensures ok ==> Repr(sb, disk, inodes[i := ino'], owner') && SameAddrs(old(disk), inodes[i], disk, ino')
      ensures ok ==> ino'.addrs == ip.addrs && ino'.size == inodes[i].size && d == ino'.addrs[NDIRECT] != 0
      ensures ok ==> Kept(old(disk), disk, owner, owner', i)
      ensures |inodes[i].addrs| == NDIRECT + 1
      ensures inodes[i].addrs[NDIRECT] != 0 ==> ok && ino' == inodes[i] && owner' == owner && disk == old(disk)
      ensures ok && inodes[i].addrs[NDIRECT] == 0 ==> |owner'| == |owner| + 1
      ensures ok ==> logged == old(logged) + if inodes[i].addrs[NDIRECT] == 0 then {BBlock(sb, d), d} else {}
      ensures !ok ==> sb.size <= |owner|
    {
      assert FileOk(disk, owner, i, inodes[i]);
      ino', owner' := inodes[i], owner;
      assert inodes[i := ino'] == inodes;
      d := ip.addrs[NDIRECT];
      ok := true;
      if d == 0 {
        ok, d := Balloc(inodes, owner);
        if ok {
          assert BitOk(sb, old(disk), owner, d);
          AllocIndirect(sb, old(disk), inodes, owner, i, d);
          AllocKept(sb, old(disk), owner, d, Indirect(i), i);
          OwnerCount(owner, d, Indirect(i));
          ip.addrs := ip.addrs[NDIRECT := d];
          ino', owner' := PutAddr(inodes[i], NDIRECT, d), owner[d := Indirect(i)];
        } else {
          UsedBelowCount(owner, sb.size);
        }
      }
    }

    /** And its second: the address in that block. */
    method BmapThrough(d: nat, bn: nat, ghost inodes: Inodes, ghost owner: Owners, ghost i: nat)
      returns (ok: bool, addr: nat, ghost owner': Owners)
      requires Repr(sb, disk, inodes, owner) && i in inodes && |inodes[i].addrs| == NDIRECT + 1
      requires d == inodes[i].addrs[NDIRECT] != 0 && NDIRECT <= bn < MAXFILE
      modifies this`disk, this`logged
      ensures ok ==> Mapped(sb, old(disk), inodes, owner, i, bn, disk, inodes[i], owner') && BitsOk(sb, disk, owner')
      ensures ok ==> addr == Addr(disk, inodes[i], bn) && |owner'| == |owner| + New(old(disk), inodes[i], bn)
      ensures ok ==> logged == old(logged) + if Addr(old(disk), inodes[i], bn) != 0 then {} else {BBlock(sb, addr), addr, d}
      ensures !ok ==> sb.size < |owner| + New(old(disk), inodes[i], bn)
    {
      assert FileOk(disk, owner, i, inodes[i]);
      assert OwnerOk(sb, disk, inodes, owner, d);
      owner' := owner;
      assert inodes[i := inodes[i]] == inodes;
      addr := Word(disk[d], bn - NDIRECT);
      ok := true;
      if addr == 0 {
        ok, addr := Balloc(inodes, owner);
        if ok {
          assert BitOk(sb, old(disk), owner, addr);
          AllocThrough(sb, old(disk), inodes, owner, i, bn, addr, d);
          AllocKept(sb, old(disk), owner, addr, Data(i, bn), i);
          OwnerCount(owner, addr, Data(i, bn));
          disk := disk[d := PutWord(disk[d], bn - NDIRECT, addr)];
          logged := logged + {d};
          owner' := owner[addr := Data(i, bn)];
        } else {
          UsedBelowCount(owner, sb.size);
        }
      }
    }

    /** bmap.  It takes no block for one the file has, and fails just when too few are free. */
    method Bmap(ip: Cached, bn: nat, ghost inodes: Inodes, ghost owner: Owners, ghost i: nat)
      returns (ok: bool, addr: nat, ghost ino': Inode, ghost owner': Owners)
      requires Repr(sb, disk, inodes, owner) && i in inodes && ip.addrs == inodes[i].addrs && bn < MAXFILE
      modifies this`disk, this`logged, ip`addrs
      ensures |inodes[i].addrs| == NDIRECT + 1
      ensures ok ==> Mapped(sb, old(disk), inodes, owner, i, bn, disk, ino', owner') && BitsOk(sb, disk, owner')
      ensures ok ==> ino'.addrs == ip.addrs && addr == Addr(disk, ino', bn)
      ensures ok ==> |owner'| == |owner| + New(old(disk), inodes[i], bn)
      ensures ok ==> logged == old(logged) + BmapLogs(sb, inodes[i], bn, Addr(old(disk), inodes[i], bn), addr, ino')
      ensures ok <==> |owner| + New(old(disk), inodes[i], bn) <= sb.size
    {
      assert FileOk(disk, owner, i, inodes[i]);
      addr := 0;
      if bn < NDIRECT {
        ok, addr, ino', owner' := BmapDirect(ip, bn, inodes, owner, i);
      } else {
        var d;
        ok, d, ino', owner' := IndirectBlock(ip, inodes, owner, i);
        if ok {
          ghost var disk1, owner1 := disk, owner';
          ok, addr, owner' := BmapThrough(d, bn, inodes[i := ino'], owner', i);
          if ok {
            MappedTrans(sb, old(disk), inodes, owner, i, bn, disk1, ino', owner1, disk, owner');
          }
        }
      }
      if ok {
        FreePlusOwned(sb, disk, inodes[i := ino'], owner');
      }
    }

    /** readi: a slice of the file, cut at its end.  It takes blocks for the holes it meets,
        and fails just when too few are free; no file changes its contents.  Without holes
        nothing changes at all. */
    method Readi(ip: Cached, off: nat, n: nat, ghost inodes: Inodes, ghost owner: Owners, ghost i: nat)
      returns (ok: bool, res: int, dst: Bytes, ghost inodes': Inodes, ghost owner': Owners)
      requires Repr(sb, disk, inodes, owner) && i in inodes && ip.Value() == inodes[i] && off < WORD && n < WORD
      modifies this`disk, this`logged, ip`addrs
      ensures off > ip.size || off + n >= WORD ==>
                ok && res == -1 && dst == [] && disk == old(disk) && logged == old(logged) && ip.Value() == inodes[i]
      ensures off <= ip.size && off + n < WORD ==>
                var len := if off + n > ip.size then ip.size - off else n;
                && off / BSIZE <= Hi(off, len) <= MAXFILE && |inodes[i].addrs| == NDIRECT + 1
                && (ok <==> |owner| + Need(old(disk), inodes[i], off / BSIZE, Hi(off, len)) <= sb.size)
                && (ok ==>
                      && Filled(sb, Write(old(disk), inodes, owner, i, off), disk, inodes', owner', Hi(off, len))
                      && BitsOk(sb, disk, owner') && ip.Value() == inodes'[i]
                      && res == len && dst == Content(old(disk), inodes[i])[off..off + len])
      ensures HoleFree(old(disk), inodes[i]) ==> ok && disk == old(disk) && logged == old(logged) && ip.Value() == inodes[i]
    {
      dst, inodes', owner' := [], inodes, owner;
      if off > ip.size || off + n >= WORD {
        return true, -1, dst, inodes', owner';
      }
      var len := if off + n > ip.size then ip.size - off else n;
      res := len;
      ghost var j := Write(disk, inodes, owner, i, off);
      FilledStart(sb, j, len);
      ok, dst, inodes', owner' := ReadLoop(ip, off, len, j, Content(disk, inodes[i]), HoleFree(disk, inodes[i]));
      if ok {
        FreePlusOwned(sb, disk, inodes', owner');
      }
    }

    method ReadLoop(ip: Cached, off: nat, len: nat, ghost j: Write, ghost s: Bytes, ghost solid: bool)
      returns (ok: bool, dst: Bytes, ghost inodes': Inodes, ghost owner': Owners)
      requires Filled(sb, j, disk, j.inodes, j.owner, off / BSIZE) && BitsOk(sb, disk, j.owner) && disk == j.disk
      requires ip.Value() == j.inodes[j.i] && j.off == off && off + len <= j.inodes[j.i].size && Hi(off, len) <= MAXFILE
      requires s == Content(j.disk, j.inodes[j.i]) && (solid ==> AllThere(j, Hi(off, len)))
      modifies this`disk, this`logged, ip`addrs
      ensures ok ==> Filled(sb, j, disk, inodes', owner', Hi(off, len)) && BitsOk(sb, disk, owner') && ip.Value() == inodes'[j.i]
      ensures ok ==> dst == s[off..off + len]
      ensures !ok ==> sb.size < |j.owner| + Need(j.disk, j.inodes[j.i], off / BSIZE, Hi(off, len))
      ensures solid ==> ok && disk == j.disk && logged == old(logged) && ip.Value() == j.inodes[j.i]
    {
      dst, inodes', owner' := [], j.inodes, j.owner;
      ghost var hi: nat := off / BSIZE;
      ok := true;
      var tot := 0;
      while tot < len
        invariant tot <= len && Filled(sb, j, disk, inodes', owner', hi) && ip.Value() == inodes'[j.i] && BitsOk(sb, disk, owner')
        invariant dst == s[off..off + tot] && Reached(off, len, tot, off / BSIZE, hi)
        invariant solid ==> disk == j.disk && logged == old(logged) && inodes' == j.inodes
      {
        ok, tot, dst, inodes', owner', hi := ReadNext(ip, off, len, tot, dst, inodes', owner', j, hi, s, solid);
        if !ok {
          return;
        }
      }
      HiIs(off, tot, off / BSIZE, hi);
    }

    method ReadNext(ip: Cached, off: nat, len: nat, tot: nat, dst: Bytes, ghost inodes: Inodes, ghost owner: Owners,
                    ghost j: Write, ghost hi: nat, ghost s: Bytes, ghost solid: bool)
      returns (ok: bool, tot': nat, dst': Bytes, ghost inodes': Inodes, ghost owner': Owners, ghost hi': nat)
      requires Filled(sb, j, disk, inodes, owner, hi) && BitsOk(sb, disk, owner) && ip.Value() == inodes[j.i] && j.off == off
      requires tot < len && off + len <= j.inodes[j.i].size && s == Content(j.disk, j.inodes[j.i]) && dst == s[off..off + tot]
      requires Reached(off, len, tot, off / BSIZE, hi) && Hi(off, len) <= MAXFILE && (solid ==> AllThere(j, Hi(off, len)))
      modifies this`disk, this`logged, ip`addrs
      ensures ok ==> tot < tot' <= len && Reached(off, len, tot', off / BSIZE, hi') && dst' == s[off..off + tot']
      ensures ok ==> Filled(sb, j, disk, inodes', owner', hi') && BitsOk(sb, disk, owner') && ip.Value() == inodes'[j.i]
      ensures !ok ==> sb.size < |j.owner| + Need(j.disk, j.inodes[j.i], off / BSIZE, Hi(off, len))
      ensures solid ==> ok && disk == old(disk) && logged == old(logged) && inodes' == inodes
    {
      var m, c;
      hi' := hi + 1;
      ok, m, c, inodes', owner' := ReadBlock(ip, off + tot, len, tot, inodes, owner, j, hi, s, solid);
      tot', dst' := tot + m, dst + c;
      if ok {
        SliceMore(s, off, tot, m, dst, c);
      }
    }

    method ReadMap(ip: Cached, bn: nat, ghost inodes: Inodes, ghost owner: Owners, ghost j: Write)
      returns (ok: bool, a: nat, ghost inodes': Inodes, ghost owner': Owners)
      requires Filled(sb, j, disk, inodes, owner, bn) && BitsOk(sb, disk, owner) && ip.Value() == inodes[j.i] && bn < MAXFILE
      modifies this`disk, this`logged, ip`addrs
      ensures ok <==> |owner| + New(old(disk), inodes[j.i], bn) <= sb.size
      ensures ok ==> Filled(sb, j, disk, inodes', owner', bn + 1) && BitsOk(sb, disk, owner') && ip.Value() == inodes'[j.i]
      ensures ok ==> a == Addr(disk, inodes'[j.i], bn)
      ensures ok && Addr(old(disk), inodes[j.i], bn) != 0 ==> disk == old(disk) && logged == old(logged) && inodes' == inodes
    {
      ghost var disk0, ino1 := disk, inodes[j.i];
      ok, a, ino1, owner' := Bmap(ip, bn, inodes, owner, j.i);
      inodes' := inodes[j.i := ino1];
      if ok {
        FilledNext(sb, j, disk0, inodes, owner, bn, disk, ino1, owner');
      }
    }

    /** One round of readi: the bytes c of file block hi. */
    method ReadBlock(ip: Cached, o: nat, len: nat, tot: nat, ghost inodes: Inodes, ghost owner: Owners, ghost j: Write,
                     ghost hi: nat, ghost s: Bytes, ghost solid: bool)
      returns (ok: bool, m: nat, c: Bytes, ghost inodes': Inodes, ghost owner': Owners)
      requires Filled(sb, j, disk, inodes, owner, hi) && BitsOk(sb, disk, owner) && ip.Value() == inodes[j.i]
      requires tot < len && o == j.off + tot && j.off + len <= j.inodes[j.i].size && s == Content(j.disk, j.inodes[j.i])
      requires Reached(j.off, len, tot, j.off / BSIZE, hi) && Hi(j.off, len) <= MAXFILE && (solid ==> AllThere(j, Hi(j.off, len)))
      modifies this`disk, this`logged, ip`addrs
      ensures ok ==> 0 < m <= len - tot && Reached(j.off, len, tot + m, j.off / BSIZE, hi + 1)
      ensures ok ==> c == s[o..o + m]
      ensures ok ==> Filled(sb, j, disk, inodes', owner', hi + 1) && BitsOk(sb, disk, owner') && ip.Value() == inodes'[j.i]
      ensures !ok ==> sb.size < |j.owner| + Need(j.disk, j.inodes[j.i], j.off / BSIZE, Hi(j.off, len))
      ensures solid ==> ok && disk == old(disk) && logged == old(logged) && inodes' == inodes
    {
      var bn, x;
      bn, x, m := Piece(o, len - tot);
      ReadStep(sb, j, disk, inodes, owner, len, tot, hi, bn, x, m);
      var a;
      c := [];
      ok, a, inodes', owner' := ReadMap(ip, bn, inodes, owner, j);
      if ok {
        FilledRead(sb, j, disk, inodes', owner', hi, o, x, m, a, s);
        c := disk[a][x..x + m];
      }
    }

    /** The bytes of src from tot to tot' go to file block bn, from byte x. */
    method WriteInto(ip: Cached, src: Bytes, tot: nat, tot': nat, bn: nat, x: nat, ghost j: Write, ghost inodes: Inodes,
                     ghost owner: Owners, ghost log0: set<nat>)
      returns (ok: bool, ghost inodes': Inodes, ghost owner': Owners)
      requires tot < tot' <= |src| && At(j.off + tot, bn, x) && x + (tot' - tot) <= BSIZE && bn < MAXFILE
      requires j.Valid(sb) && Ongoing(sb, j, disk, inodes, owner, src[..tot], log0, logged, bn) && ip.addrs == inodes[j.i].addrs
      modifies this`disk, this`logged, ip`addrs
      ensures ok ==> Ongoing(sb, j, disk, inodes', owner', src[..tot'], log0, logged, bn + 1)
      ensures ok ==> ip.addrs == inodes'[j.i].addrs
      ensures !ok ==> sb.size < |j.owner| + Need(j.disk, j.inodes[j.i], j.off / BSIZE, bn + 1)
    {
      ghost var disk0, log, ino1 := disk, logged, inodes[j.i];
      inodes' := inodes;
      NeedNext(sb, j, disk, inodes[j.i], owner, bn);
      var a;
      ok, a, ino1, owner' := Bmap(ip, bn, inodes, owner, j.i);
      if ok {
        WriteRound(sb, j, disk0, inodes, owner, log0, log, src, tot, tot', bn, x, disk, ino1, owner', a);
        disk := Stored(disk, a, x, src[tot..tot']);
        logged := logged + {a};
        inodes' := inodes[j.i := Longer(ino1, j.off + tot')];
      }
    }

    /** One round of writei: as much of src as fits file block hi. */
    method WriteBlock(ip: Cached, src: Bytes, tot: nat, o: nat, ghost j: Write, ghost inodes: Inodes,
                      ghost owner: Owners,
                      ghost log0: set<nat>, ghost hi: nat)
      returns (ok: bool, tot': nat, ghost inodes': Inodes, ghost owner': Owners, ghost hi': nat)
      requires tot < |src| && o == j.off + tot && Reached(j.off, |src|, tot, j.off / BSIZE, hi) && Hi(j.off, |src|) <= MAXFILE
      requires j.Valid(sb) && Ongoing(sb, j, disk, inodes, owner, src[..tot], log0, logged, hi) && ip.addrs == inodes[j.i].addrs
      modifies this`disk, this`logged, ip`addrs
      ensures ok ==> tot < tot' <= |src| && Reached(j.off, |src|, tot', j.off / BSIZE, hi')
      ensures ok ==> Ongoing(sb, j, disk, inodes', owner', src[..tot'], log0, logged, hi')
      ensures ok ==> ip.addrs == inodes'[j.i].addrs
      ensures !ok ==> sb.size < |j.owner| + Need(j.disk, j.inodes[j.i], j.off / BSIZE, Hi(j.off, |src|))
    {
      hi' := hi + 1;
      var bn, x, m := Piece(o, |src| - tot);
      tot' := tot + m;
      PieceReached(j.off, |src|, tot, hi, bn, x, m);
      NeedBounds(j.disk, j.inodes[j.i], j.off / BSIZE, hi', Hi(j.off, |src|));
      ok, inodes', owner' := WriteInto(ip, src, tot, tot', bn, x, j, inodes, owner, log0);
    }

    /** iupdate: the place of the inode in its block gets the copy in memory; the other
        inodes of the block, and all other blocks, are left. */
    method Iupdate(ip: Cached, ghost inodes: Inodes, ghost owner: Owners)
      requires Repr(sb, disk, inodes, owner) && ip.inum in inodes && Fits(ip.Whole())
      modifies this`disk, this`logged
      ensures Updated(sb, old(disk), disk, ip.inum, ip.Whole()) && logged == old(logged) + {IBlock(sb, ip.inum)}
      ensures Repr(sb, disk, inodes, owner)
      ensures forall j :: j in inodes ==> SameAddrs(old(disk), inodes[j], disk, inodes[j])
    {
      ghost var i := ip.inum;
      var m := IBlock(sb, ip.inum);
      assert OwnerOk(sb, disk, inodes, owner, m);
      var b := StoreDinode(disk[m], Slot(ip.inum), ip.Whole());
      UpdatedIs(sb, disk, i, ip.Whole(), b);
      OtherBlockAny(sb, disk, inodes, owner, m, b);
      disk := disk[m := b];
      logged := logged + {m};
    }

    method WriteLoop(ip: Cached, src: Bytes, off: nat, ghost j: Write)
      returns (ok: bool, ghost inodes': Inodes, ghost owner': Owners)
      requires j.Valid(sb) && disk == j.disk && Ongoing(sb, j, disk, j.inodes, j.owner, [], logged, logged, j.off / BSIZE)
      requires off == j.off && Hi(j.off, |src|) <= MAXFILE && ip.addrs == j.inodes[j.i].addrs
      modifies this`disk, this`logged, ip`addrs
      ensures ok ==> Ongoing(sb, j, disk, inodes', owner', src, old(logged), logged, Hi(j.off, |src|))
      ensures ok ==> ip.addrs == inodes'[j.i].addrs
      ensures !ok ==> sb.size < |j.owner| + Need(j.disk, j.inodes[j.i], j.off / BSIZE, Hi(j.off, |src|))
    {
      ghost var hi: nat, log0 := j.off / BSIZE, logged;
      var tot := 0;
      ok, inodes', owner' := true, j.inodes, j.owner;
      WholePrefix(src);
      while tot < |src|
        invariant tot <= |src| && Reached(j.off, |src|, tot, j.off / BSIZE, hi)
        invariant Ongoing(sb, j, disk, inodes', owner', src[..tot], log0, logged, hi) && ip.addrs == inodes'[j.i].addrs
        decreases |src| - tot
      {
        ok, tot, inodes', owner', hi := WriteBlock(ip, src, tot, off + tot, j, inodes', owner', log0, hi);
        if !ok {
          return;
        }
      }
      HiIs(j.off, tot, j.off / BSIZE, hi);
    }

    /** writei's end: the new size, if the file grew. */
    method WriteEnd(ip: Cached, src: Bytes, off: nat, ghost j: Write, ghost inodes: Inodes, ghost owner: Owners,
                    ghost log0: set<nat>, ghost d0: Dinode)
      requires off == j.off && j.i == ip.inum && Hi(off, |src|) <= MAXFILE && off + |src| <= MAXFILE * BSIZE
      requires j.Valid(sb) && Ongoing(sb, j, disk, inodes, owner, src, log0, logged, Hi(off, |src|))
      requires ip.addrs == inodes[j.i].addrs && ip.size == j.inodes[j.i].size && d0.ino == j.inodes[j.i] && Fits(d0)
      requires ip.Whole() == d0.(ino := ip.Value())
      modifies this`disk, this`logged, ip`size
      ensures Wrote(sb, j, disk, inodes, owner, src, log0, logged) && |owner| <= sb.size
      ensures ip.Value() == inodes[ip.inum] && Fits(ip.Whole()) && Recorded(sb, j, disk, |src|, d0, ip.Whole())
    {
      ghost var disk1, log1 := disk, logged;
      AddrsFit(sb, disk, inodes, owner, j.i);
      if |src| > 0 && off + |src| > ip.size {
        ip.size := off + |src|;
        Iupdate(ip, inodes, owner);
        UpdateEnd(sb, j, disk1, inodes, owner, src, log0, log1, disk, d0, ip.Whole());
      } else {
        NoUpdateEnd(sb, j, disk, inodes, owner, src, log0, logged, d0, ip.Whole());
      }
    }

    /** writei: src spliced into the file at off, or -1 and nothing.  It fails just when too
        few blocks are free. */
    method Writei(ip: Cached, src: Bytes, off: nat, ghost inodes: Inodes, ghost owner: Owners)
      returns (ok: bool, res: int, ghost inodes': Inodes, ghost owner': Owners)
      requires Repr(sb, disk, inodes, owner) && ip.inum in inodes && ip.Value() == inodes[ip.inum]
      requires Fits(ip.Whole()) && off < WORD && |src| < WORD
      modifies this, ip`addrs, ip`size
      ensures old(Refused(ip.size, off, |src|)) ==>
                ok && res == -1 && disk == old(disk) && logged == old(logged) &&
                ip.Value() == old(ip.Value()) && inodes' == inodes && owner' == owner
      ensures !old(Refused(ip.size, off, |src|)) ==>
                && off / BSIZE <= Hi(off, |src|) <= MAXFILE && |inodes[ip.inum].addrs| == NDIRECT + 1
                && (ok <==> |owner| + Need(old(disk), inodes[ip.inum], off / BSIZE, Hi(off, |src|)) <= sb.size)
      ensures ok && !old(Refused(ip.size, off, |src|)) ==>
                var j := Write(old(disk), inodes, owner, ip.inum, off);
                && Wrote(sb, j, disk, inodes', owner', src, old(logged), logged)
                && res == |src| && ip.Value() == inodes'[ip.inum] && Fits(ip.Whole())
                && Recorded(sb, j, disk, |src|, old(ip.Whole()), ip.Whole())
    {
      inodes', owner' := inodes, owner;
      if off > ip.size || off + |src| >= WORD {
        return true, -1, inodes', owner';
      }
      if off + |src| > MAXFILE * BSIZE {
        return true, -1, inodes', owner';
      }
      ghost var j := Write(disk, inodes, owner, ip.inum, off);
      ghost var d0 := ip.Whole();
      OngoingStart(sb, j, logged);
      HiSmall(off, |src|);
      ok, inodes', owner' := WriteLoop(ip, src, off, j);
      res := |src|;
      if ok {
        WriteEnd(ip, src, off, j, inodes', owner', old(logged), d0);
      }
    }

    /** One transaction of filewrite, with the number of blocks it logs. */
    method WriteChunk(ip: Cached, src: Bytes, off: nat, ghost inodes: Inodes, ghost owner: Owners)
      returns (ok: bool, res: int, ghost inodes': Inodes, ghost owner': Owners)
      requires Repr(sb, disk, inodes, owner) && ip.inum in inodes && ip.Value() == inodes[ip.inum]
      requires Fits(ip.Whole()) && off < WORD && 0 < |src| <= MAXCHUNK
      modifies this, ip`addrs, ip`size
      ensures old(Refused(ip.size, off, |src|)) ==>
                ok && res == -1 && disk == old(disk) && logged == {} && ip.Value() == old(ip.Value()) &&
                inodes' == inodes && owner' == owner
      ensures !old(Refused(ip.size, off, |src|)) ==>
                && off / BSIZE <= Hi(off, |src|) <= MAXFILE && |inodes[ip.inum].addrs| == NDIRECT + 1
                && (ok <==> |owner| + Need(old(disk), inodes[ip.inum], off / BSIZE, Hi(off, |src|)) <= sb.size)
      ensures ok && !old(Refused(ip.size, off, |src|)) ==>
                var j := Write(old(disk), inodes, owner, ip.inum, off);
                && Wrote(sb, j, disk, inodes', owner', src, {}, logged)
                && res == |src| && ip.Value() == inodes'[ip.inum] && Fits(ip.Whole())
                && Recorded(sb, j, disk, |src|, old(ip.Whole()), ip.Whole())
      ensures ok && !old(Refused(ip.size, off, |src|)) ==>
                && |logged| == LogSize(sb, old(disk), inodes[ip.inum], off, |src|)
                && (|logged| > MAXOPBLOCKS <==> Passes(sb, old(disk), inodes[ip.inum], off, |src|))
      ensures ok && StartThere(old(disk), inodes[ip.inum], off) ==> |logged| <= MAXOPBLOCKS
    {
      logged := {};
      ghost var j := Write(disk, inodes, owner, ip.inum, off);
      ok, res, inodes', owner' := Writei(ip, src, off, inodes, owner);
      if ok && res >= 0 {
        ChunkLogs(sb, j, disk, inodes', owner', src, logged);
      }
    }

    /** One round of filewrite, at byte i of src, which gets it to byte i'. */
    method FileRound(ip: Cached, src: Bytes, i: nat, off: nat, ghost j: Write, ghost inodes: Inodes,
                     ghost owner: Owners)
      returns (ok: bool, r: int, i': nat, ghost inodes': Inodes, ghost owner': Owners)
      requires j.i == ip.inum && i < |src| && off == j.off + i < WORD && Done(sb, j, disk, inodes, owner, src[..i])
      requires OnWay(sb, j, disk, inodes, owner, |src|, i) && Owned(sb, j.disk, j.inodes, j.owner)
      requires ip.Value() == inodes[ip.inum] && Fits(ip.Whole())
      modifies this, ip`addrs, ip`size
      ensures ok ==> r == if Refused(inodes[ip.inum].size, off, Chunk(src, i)) then -1 else Chunk(src, i)
      ensures ok ==> i' == (if r < 0 then i else i + Chunk(src, i)) && Done(sb, j, disk, inodes', owner', src[..i'])
      ensures ok ==> OnWay(sb, j, disk, inodes', owner', |src|, i')
      ensures ok ==> ip.Value() == inodes'[ip.inum] && Fits(ip.Whole())
      ensures ok && HoleFree(old(disk), inodes[ip.inum]) ==>
                InStep(sb, ip.inum, old(disk), old(ip.Whole()), disk, ip.Whole()) && |logged| <= MAXOPBLOCKS
      ensures ok && r < 0 ==> ip.size == old(ip.size)
      ensures !ok ==> j.off <= j.inodes[j.i].size && !Suffices(sb, j, |src|)
    {
      var n1 := |src| - i;
      if n1 > MAXCHUNK {
        n1 := MAXCHUNK;
      }
      ghost var j1, d0 := Write(disk, inodes, owner, ip.inum, off), ip.Whole();
      i' := i + n1;
      var c := src[i..i'];
      assert |c| == Chunk(src, i);
      ok, r, inodes', owner' := WriteChunk(ip, c, off, inodes, owner);
      if !ok {
        RunsOut(sb, j, j1.disk, inodes, owner, |src|, i, i', off, |c|);
      } else if r >= 0 {
        RoundEnd(sb, j, j1, disk, inodes', owner', src, i, i', c, logged);
        RoundOnWay(sb, j, j1, disk, inodes', owner', |src|, i, i', c, logged);
        RoundSolid(sb, j1, disk, inodes', owner', c, logged, d0, ip.Whole());
      } else {
        i' := i;
      }
    }

    /** filewrite on a file opened on an inode.  It writes w bytes: all of src, unless the
        chunk that starts there would not fit a file or f->off is past the end.  It fails just
        when too few blocks are free for them.  `logs` is what its transactions logged: on a
        file without holes, at most MAXOPBLOCKS blocks each, and the inode on disk stays the
        one in memory. */
    method Filewrite(ip: Cached, writable: bool, src: Bytes, off: nat, ghost inodes: Inodes, ghost owner: Owners)
      returns (ok: bool, res: int, off': nat, w: nat, ghost inodes': Inodes, ghost owner': Owners, ghost logs: seq<set<nat>>)
      requires Repr(sb, disk, inodes, owner) && ip.inum in inodes && ip.Value() == inodes[ip.inum] && off < WORD
      requires Fits(ip.Whole()) && |src| < WORD / 2
      modifies this, ip`addrs, ip`size
      ensures !writable ==> ok && res == -1 && off' == off && disk == old(disk) && logs == []
      ensures ok && writable ==>
                && w <= |src| && off' == off + w && res == (if w == |src| then w else -1)
                && Done(sb, Write(old(disk), inodes, owner, ip.inum, off), disk, inodes', owner', src[..w])
                && ip.Value() == inodes'[ip.inum]
                && (w < |src| ==> Refused(ip.size, off', Chunk(src, w)))
                && (HoleFree(old(disk), inodes[ip.inum]) ==>
                      InStep(sb, ip.inum, old(disk), old(ip.Whole()), disk, ip.Whole()) && AllWithin(logs))
      ensures ok && writable ==> w == if off <= old(ip.size) then Reach(old(ip.size), off, |src|, 0) else 0
      ensures writable ==> (ok <==> off > old(ip.size) || Suffices(sb, Write(old(disk), inodes, owner, ip.inum, off), |src|))
      ensures |logs| <= Chunks(|src|)
    {
      inodes', owner', off', w, logs := inodes, owner, off, 0, [];
      if !writable {
        return true, -1, off', 0, inodes', owner', logs;
      }
      ghost var j := Write(disk, inodes, owner, ip.inum, off);
      DoneStart(sb, j);
      OnWayStart(sb, j, |src|);
      WholePrefix(src);
      ok, off', w, inodes', owner', logs := FileLoop(ip, src, off, j);
      res := if w == |src| then |src| else -1;
      if ok {
        Ended(sb, j, disk, inodes', owner', |src|, w);
      }
    }

    method FileLoop(ip: Cached, src: Bytes, off: nat, ghost j: Write)
      returns (ok: bool, off': nat, w: nat, ghost inodes': Inodes, ghost owner': Owners, ghost logs: seq<set<nat>>)
      requires Done(sb, j, disk, j.inodes, j.owner, src[..0]) && OnWay(sb, j, disk, j.inodes, j.owner, |src|, 0)
      requires Owned(sb, j.disk, j.inodes, j.owner) && disk == j.disk && j.i == ip.inum && off == j.off < WORD
      requires ip.Value() == j.inodes[j.i] && Fits(ip.Whole()) && |src| < WORD / 2
      modifies this, ip`addrs, ip`size
      ensures ok ==> OnWay(sb, j, disk, inodes', owner', |src|, w) && Done(sb, j, disk, inodes', owner', src[..w])
      ensures ok ==> off' == off + w && ip.Value() == inodes'[j.i]
      ensures ok && w < |src| ==> Refused(ip.size, off', Chunk(src, w))
      ensures ok && HoleFree(j.disk, j.inodes[j.i]) ==>
                InStep(sb, j.i, j.disk, old(ip.Whole()), disk, ip.Whole()) && AllWithin(logs)
      ensures !ok ==> j.off <= j.inodes[j.i].size && !Suffices(sb, j, |src|)
      ensures |logs| <= Chunks(|src|)
    {
      ok, off', w, inodes', owner', logs := true, off, 0, j.inodes, j.owner, [];
      while w < |src|
        invariant Rounds(|src|, w, |logs|) && OnWay(sb, j, disk, inodes', owner', |src|, w)
        invariant Done(sb, j, disk, inodes', owner', src[..w])
        invariant off' == off + w < WORD && ip.Value() == inodes'[ip.inum] && Fits(ip.Whole())
        invariant HoleFree(j.disk, j.inodes[j.i]) ==>
                    InStep(sb, j.i, j.disk, old(ip.Whole()), disk, ip.Whole()) && AllWithin(logs)
      {
        var r;
        RoundsNext(|src|, w, |logs|);
        ok, r, w, inodes', owner' := FileRound(ip, src, w, off', j, inodes', owner');
        if !ok {
          break;
        }
        WithinMore(HoleFree(j.disk, j.inodes[j.i]), logs, logged);
        logs := logs + [logged];
        if r > 0 {
          off' := off' + r;
        }
        if r < 0 {
          break;
        }
      }
    }

    /** bfree: one bit changes. */
    method Bfree(b: nat)
      requires InUse(sb, disk, b)
      modifies this`disk, this`logged
      ensures disk == Cleared(sb, old(disk), b) && logged == old(logged) + {BBlock(sb, b)}
      ensures forall c: nat {:trigger InUse(sb, disk, c)} :: InUse(sb, disk, c) <==> old(InUse(sb, disk, c)) && c != b
    {
      ClearBit(disk[BBlock(sb, b)][ByteOf(b)], BitOf(b), 0);
      forall c: nat ensures InUse(sb, Cleared(sb, disk, b), c) <==> InUse(sb, disk, c) && c != b {
        ClearedBits(sb, disk, b, c);
      }
      disk := MarkByte(sb, disk, b, disk[BBlock(sb, b)][ByteOf(b)] - Pow2(BitOf(b)));
      logged := logged + {BBlock(sb, b)};
    }

    /** itrunc's first loop. */
    method TruncDirect(ip: Cached, ghost inodes: Inodes, ghost owner: Owners, ghost i: nat)
      returns (ghost inodes': Inodes, ghost owner': Owners)
      requires Repr(sb, disk, inodes, owner) && i in inodes && inodes[i].size == 0 && ip.addrs == inodes[i].addrs
      modifies this`disk, this`logged, ip`addrs
      ensures Repr(sb, disk, inodes', owner') && i in inodes' && inodes' == inodes[i := inodes'[i]]
      ensures inodes'[i].size == 0 && ip.addrs == inodes'[i].addrs && |ip.addrs| == NDIRECT + 1
      ensures forall k :: 0 <= k < NDIRECT ==> ip.addrs[k] == 0
      ensures Shrunk(owner, owner', i) && BlocksSame(old(disk), disk, owner)
      ensures logged == old(logged) + BitmapOf(sb, owner.Keys - owner'.Keys)
    {
      EmptySize(sb, disk, inodes, owner, i);
      inodes', owner' := inodes, owner;
      assert inodes == inodes[i := inodes[i]];
      var k := 0;
      while k < NDIRECT
        invariant k <= NDIRECT && Repr(sb, disk, inodes', owner') && i in inodes' && inodes' == inodes[i := inodes'[i]]
        invariant inodes'[i].size == 0 && ip.addrs == inodes'[i].addrs && |ip.addrs| == NDIRECT + 1
        invariant forall x :: 0 <= x < k ==> ip.addrs[x] == 0
        invariant Shrunk(owner, owner', i) && BlocksSame(old(disk), disk, owner)
        invariant logged == old(logged) + BitmapOf(sb, owner.Keys - owner'.Keys)
      {
        var b := ip.addrs[k];
        if b != 0 {
          FreeDirect(sb, disk, inodes', owner', i, k);
          FreeBits(sb, disk, inodes', owner', b);
          ClearedSame(sb, disk, owner, b);
          BitmapMore(sb, owner, owner', b);
          Bfree(b);
          ip.addrs := ip.addrs[k := 0];
          inodes', owner' := inodes'[i := PutAddr(inodes'[i], k, 0)], owner' - {b};
        }
        k := k + 1;
      }
    }

    /** Its second, over the block of addresses d. */
    method TruncThrough(d: nat, ghost inodes: Inodes, ghost owner: Owners, ghost i: nat, ghost owner0: Owners)
      returns (ghost view: Disk, ghost owner': Owners)
      requires Repr(sb, disk, inodes, owner) && i in inodes && inodes[i].size == 0
      requires |inodes[i].addrs| == NDIRECT + 1 && d == inodes[i].addrs[NDIRECT] != 0
      requires Shrunk(owner0, owner, i)
      modifies this`disk, this`logged
      ensures d in disk && TruncAt(sb, view, disk, inodes, owner', i, d, disk[d], NINDIRECT)
      ensures Shrunk(owner0, owner', i) && BlocksSame(old(disk), disk, owner0)
      ensures owner'.Keys <= owner.Keys && logged == old(logged) + BitmapOf(sb, owner.Keys - owner'.Keys)
    {
      assert FileOk(disk, owner, i, inodes[i]);
      assert OwnerOk(sb, disk, inodes, owner, d);
      view, owner' := disk, owner;
      assert disk == view[d := disk[d]];
      var a := disk[d];
      var j := 0;
      while j < NINDIRECT
        invariant j <= NINDIRECT && TruncAt(sb, view, disk, inodes, owner', i, d, a, j)
        invariant Shrunk(owner0, owner', i) && BlocksSame(old(disk), disk, owner0)
        invariant owner'.Keys <= owner.Keys && logged == old(logged) + BitmapOf(sb, owner.Keys - owner'.Keys)
      {
        var b := Word(a, j);
        if b != 0 {
          TruncStep(sb, view, disk, inodes, owner', i, d, a, j, b);
          ClearedSame(sb, disk, owner0, b);
          BitmapMore(sb, owner, owner', b);
          Bfree(b);
          view := StoreWord(Cleared(sb, view, b), d, j, 0);
          owner' := owner' - {b};
        }
        j := j + 1;
      }
    }

    /** The rest of the file: behind the block of addresses, and that block. */
    method TruncIndirect(ip: Cached, d: nat, ghost inodes: Inodes, ghost owner: Owners, ghost i: nat,
                         ghost owner0: Owners)
      returns (ghost inodes': Inodes, ghost owner': Owners)
      requires Repr(sb, disk, inodes, owner) && i in inodes && inodes[i].size == 0 && ip.addrs == inodes[i].addrs
      requires |ip.addrs| == NDIRECT + 1 && d == ip.addrs[NDIRECT] != 0
      requires Shrunk(owner0, owner, i)
      modifies this`disk, this`logged, ip`addrs
      ensures Repr(sb, disk, inodes', owner') && inodes' == inodes[i := PutAddr(inodes[i], NDIRECT, 0)]
      ensures ip.addrs == inodes'[i].addrs
      ensures Shrunk(owner0, owner', i) && BlocksSame(old(disk), disk, owner0)
      ensures owner'.Keys <= owner.Keys && logged == old(logged) + BitmapOf(sb, owner.Keys - owner'.Keys)
    {
      ghost var view;
      view, owner' := TruncThrough(d, inodes, owner, i, owner0);
      assert forall k :: NDIRECT <= k < MAXFILE ==> Addr(view, inodes[i], k) == Word(view[d], k - NDIRECT);
      FreeIndirect(sb, view, inodes, owner', i, d);
      FreeBits(sb, view, inodes, owner', d);
      ClearedBut(sb, view, disk, d, d);
      ClearedSame(sb, disk, owner0, d);
      BitmapMore(sb, owner, owner', d);
      inodes' := inodes[i := PutAddr(inodes[i], NDIRECT, 0)];
      ghost var x := disk[d];
      Bfree(d);
      owner' := owner' - {d};
      OtherBlockAny(sb, Cleared(sb, view, d), inodes', owner', d, x);
      ip.addrs := ip.addrs[NDIRECT := 0];
    }

    /** Both loops. */
    method TruncBlocks(ip: Cached, ghost inodes: Inodes, ghost owner: Owners, ghost i: nat)
      returns (ghost inodes': Inodes, ghost owner': Owners, ghost owner1: Owners)
      requires Repr(sb, disk, inodes, owner) && i in inodes && inodes[i].size == 0 && ip.addrs == inodes[i].addrs
      modifies this`disk, this`logged, ip`addrs
      ensures Repr(sb, disk, inodes', owner') && i in inodes' && inodes' == inodes[i := Inode(0, ip.addrs)]
      ensures |ip.addrs| == NDIRECT + 1 && forall k :: 0 <= k <= NDIRECT ==> ip.addrs[k] == 0
      ensures Shrunk(owner, owner', i) && BlocksSame(old(disk), disk, owner) && owner'.Keys <= owner1.Keys <= owner.Keys
      ensures logged == old(logged) + BitmapOf(sb, owner.Keys - owner1.Keys) + BitmapOf(sb, owner1.Keys - owner'.Keys)
    {
      inodes', owner' := TruncDirect(ip, inodes, owner, i);
      owner1 := owner';
      var d := ip.addrs[NDIRECT];
      if d != 0 {
        inodes', owner' := TruncIndirect(ip, d, inodes', owner', i, owner);
      } else {
        assert BitmapOf(sb, owner1.Keys - owner'.Keys) == {};
      }
    }

    /** And what they leave. */
    method TruncAll(ip: Cached, ghost inodes: Inodes, ghost owner: Owners) returns (ghost inodes': Inodes)
      requires Repr(sb, disk, inodes, owner) && ip.inum in inodes && ip.Value() == inodes[ip.inum]
      modifies this`disk, this`logged, ip`addrs
      ensures Repr(sb, disk, inodes', Without(owner, ip.inum)) && inodes' == inodes[ip.inum := Inode(0, ip.addrs)]
      ensures |ip.addrs| == NDIRECT + 1 && forall k :: 0 <= k <= NDIRECT ==> ip.addrs[k] == 0
      ensures Shrunk(owner, Without(owner, ip.inum), ip.inum) && BlocksSame(old(disk), disk, owner)
      ensures forall k :: k in inodes ==> OnDisk(sb, disk, k) == old(OnDisk(sb, disk, k))
      ensures logged == old(logged) + BitmapOf(sb, OwnedBy(owner, ip.inum))
    {
      ghost var i, owner', owner1 := ip.inum, owner, owner;
      EmptySize(sb, disk, inodes, owner, i);
      inodes', owner', owner1 := TruncBlocks(ip, inodes[i := inodes[i].(size := 0)], owner, i);
      Truncated(sb, old(disk), inodes, owner, owner1, disk, inodes', owner', i);
    }

    /** itrunc: the file is empty, in memory and on disk; the blocks that were its own are
        free, and no others; nothing else has changed.  It logs the bitmap blocks of what it
        frees, and the inode block. */
    method Itrunc(ip: Cached, ghost inodes: Inodes, ghost owner: Owners) returns (ghost inodes': Inodes)
      requires Repr(sb, disk, inodes, owner) && ip.inum in inodes && ip.Value() == inodes[ip.inum] && Fits(ip.Whole())
      modifies this, ip`addrs, ip`size
      ensures Repr(sb, disk, inodes', Without(owner, ip.inum)) && inodes' == inodes[ip.inum := ip.Value()]
      ensures ip.size == 0 && |ip.addrs| == NDIRECT + 1 && forall k :: 0 <= k <= NDIRECT ==> ip.addrs[k] == 0
      ensures OnDisk(sb, disk, ip.inum) == ip.Whole()
      ensures forall k :: k in inodes && k != ip.inum ==> OnDisk(sb, disk, k) == old(OnDisk(sb, disk, k))
      ensures FilesSame(old(disk), disk, owner)
      ensures logged == old(logged) + TruncLogs(sb, owner, ip.inum)
    {
      inodes' := TruncAll(ip, inodes, owner);
      ip.size := 0;
      ghost var disk1 := disk;
      Iupdate(ip, inodes', Without(owner, ip.inum));
      FilesKept(sb, old(disk), disk1, disk, inodes', Without(owner, ip.inum), owner, ip.inum);
    }
  }
}
