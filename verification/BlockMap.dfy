/**
 What blocks are for (fs.c): `inodes` is every inode as it is in memory, and `owner` says for
 each block in use what uses it.  Blocks are taken for a file and given back; the bitmap,
 the inodes and the owners keep agreeing.

 `disk` is the current contents of every block, which module Storage shows the buffer cache,
 the log and the disk to provide.  A file may have holes; what depends on it that there are
 none says so (`HoleFree`).
 */
module BlockMap {
  import opened Common
  import opened Blocks

  // ----- what blocks are for ----------------------------------------------

  /** Table: inode blocks; Meta: the bitmap, and what else is before the data blocks. */
  datatype Owner = Meta | Table | Data(i: nat, bn: nat) | Indirect(i: nat)

  /** A block of a file; of file i; of another. */
  predicate InFile(o: Owner) {
    o.Data? || o.Indirect?
  }

  predicate Is(o: Owner, i: nat) {
    InFile(o) && o.i == i
  }

  predicate IsNot(o: Owner, i: nat) {
    InFile(o) && o.i != i
  }

  /** [ boot | super | log | inodes | bitmap | data ], as mkfs lays a disk out. */
  function Nmeta(sb: Super): nat {
    sb.bmapstart + sb.size / BPB + 1
  }

  /** What a block before the data is for. */
  function MetaOwner(sb: Super, b: nat): Owner {
    if sb.inodestart <= b < sb.bmapstart then Table else Meta
  }

  type Inodes = map<nat, Inode>
  type Owners = map<nat, Owner>

  /** The block that holds block bn of a file, 0 if none does. */
  function Addr(disk: Disk, ino: Inode, bn: nat): nat
    requires |ino.addrs| == NDIRECT + 1 && bn < MAXFILE
  {
    if bn < NDIRECT then ino.addrs[bn]
    else
      var d := ino.addrs[NDIRECT];
      if d == 0 || d !in disk || |disk[d]| != BSIZE then 0 else Word(disk[d], bn - NDIRECT)
  }

  ghost predicate BitOk(sb: Super, disk: Disk, owner: Owners, b: nat) {
    && BBlock(sb, b) < sb.size && BBlock(sb, b) in owner && owner[BBlock(sb, b)] == Meta
    && (InUse(sb, disk, b) <==> b in owner)
  }

  ghost predicate BlockOk(disk: Disk, owner: Owners, i: nat, ino: Inode, bn: nat)
    requires |ino.addrs| == NDIRECT + 1 && bn < MAXFILE
  {
    var a := Addr(disk, ino, bn);
    a != 0 ==> a in owner && owner[a] == Data(i, bn)
  }

  /** A file whose blocks are its own. */
  ghost predicate FileOk(disk: Disk, owner: Owners, i: nat, ino: Inode) {
    && |ino.addrs| == NDIRECT + 1 && ino.size <= MAXFILE * BSIZE
    && (ino.addrs[NDIRECT] != 0 ==> ino.addrs[NDIRECT] in owner && owner[ino.addrs[NDIRECT]] == Indirect(i))
    && (forall bn {:trigger BlockOk(disk, owner, i, ino, bn)} :: 0 <= bn < MAXFILE ==> BlockOk(disk, owner, i, ino, bn))
  }

  /** A block in use is some inode's, just where the owner says. */
  ghost predicate OwnerOk(sb: Super, disk: Disk, inodes: Inodes, owner: Owners, b: nat)
    requires b in owner
  {
    && b < sb.size
    && match owner[b]
       case Meta => b < Nmeta(sb)
       case Table => b < Nmeta(sb)
       case Data(i, bn) => i in inodes && |inodes[i].addrs| == NDIRECT + 1 && bn < MAXFILE && Addr(disk, inodes[i], bn) == b
       case Indirect(i) => i in inodes && |inodes[i].addrs| == NDIRECT + 1 && inodes[i].addrs[NDIRECT] == b
  }

  ghost predicate DiskOk(sb: Super, disk: Disk) {
    sb.size <= WORD && forall b :: 0 <= b < sb.size ==> b in disk && |disk[b]| == BSIZE
  }

  ghost predicate BitsOk(sb: Super, disk: Disk, owner: Owners) {
    forall b {:trigger BitOk(sb, disk, owner, b)} :: 0 <= b < sb.size ==> BitOk(sb, disk, owner, b)
  }

  ghost predicate OwnersOk(sb: Super, disk: Disk, inodes: Inodes, owner: Owners) {
    forall b {:trigger OwnerOk(sb, disk, inodes, owner, b)} :: b in owner ==> OwnerOk(sb, disk, inodes, owner, b)
  }

  ghost predicate FilesOk(disk: Disk, inodes: Inodes, owner: Owners) {
    forall i {:trigger FileOk(disk, owner, i, inodes[i])} :: i in inodes ==> FileOk(disk, owner, i, inodes[i])
  }

  /** Every inode has its place in a block of the table. */
  ghost predicate TableOk(sb: Super, inodes: Inodes, owner: Owners) {
    forall i {:trigger IBlock(sb, i)} :: i in inodes ==> IBlock(sb, i) in owner && owner[IBlock(sb, i)] == Table
  }

  /** The blocks before the data are what they are laid out for. */
  ghost predicate LaidOut(sb: Super, owner: Owners, b: nat) {
    b in owner && owner[b] == MetaOwner(sb, b)
  }

  ghost predicate MetaOk(sb: Super, owner: Owners) {
    && Nmeta(sb) <= sb.size && 0 in owner && owner[0] == Meta
    && (forall b {:trigger LaidOut(sb, owner, b)} :: 0 <= b < Nmeta(sb) ==> LaidOut(sb, owner, b))
  }

  lemma MetaKept(sb: Super, owner: Owners, owner': Owners)
    requires MetaOk(sb, owner) && forall b :: b in owner && !InFile(owner[b]) ==> b in owner' && owner'[b] == owner[b]
    ensures MetaOk(sb, owner')
  {
    forall b | 0 <= b < Nmeta(sb) ensures LaidOut(sb, owner', b) {
      assert LaidOut(sb, owner, b);
    }
  }

  /** The inodes and the owners agree. */
  ghost predicate Owned(sb: Super, disk: Disk, inodes: Inodes, owner: Owners) {
    && DiskOk(sb, disk)
    && MetaOk(sb, owner)
    && FilesOk(disk, inodes, owner)
    && OwnersOk(sb, disk, inodes, owner)
    && TableOk(sb, inodes, owner)
  }

  /** And so does the bitmap. */
  ghost predicate Repr(sb: Super, disk: Disk, inodes: Inodes, owner: Owners) {
    Owned(sb, disk, inodes, owner) && BitsOk(sb, disk, owner)
  }

  /** Every byte of the file has a block. */
  ghost predicate HoleFree(disk: Disk, ino: Inode) {
    && |ino.addrs| == NDIRECT + 1
    && (forall bn :: 0 <= bn < MAXFILE && bn * BSIZE < ino.size ==> Addr(disk, ino, bn) != 0)
  }

  // ----- what the bitmap says ---------------------------------------------

  ghost predicate FileReaches(disk: Disk, ino: Inode, b: nat) {
    && |ino.addrs| == NDIRECT + 1
    && (ino.addrs[NDIRECT] == b || exists bn :: 0 <= bn < MAXFILE && Addr(disk, ino, bn) == b)
  }

  /** The set bits are the blocks before the data and those that the inodes lead to, no more
      and no less; block 0 is among the former, and no block is both. */
  lemma BitmapIsReachability(sb: Super, disk: Disk, inodes: Inodes, owner: Owners, b: nat)
    requires Repr(sb, disk, inodes, owner) && b < sb.size
    ensures InUse(sb, disk, b) <==> b < Nmeta(sb) || exists i :: i in inodes && FileReaches(disk, inodes[i], b)
    ensures 0 < b < Nmeta(sb) ==> forall i :: i in inodes ==> !FileReaches(disk, inodes[i], b)
    ensures InUse(sb, disk, 0)
  {
    assert BitOk(sb, disk, owner, b) && BitOk(sb, disk, owner, 0);
    assert b < Nmeta(sb) ==> LaidOut(sb, owner, b);
    if b in owner {
      assert OwnerOk(sb, disk, inodes, owner, b);
    }
    if b in owner && InFile(owner[b]) {
      assert OwnerOk(sb, disk, inodes, owner, b);
      assert FileReaches(disk, inodes[owner[b].i], b);
    }
    if i :| b != 0 && i in inodes && FileReaches(disk, inodes[i], b) {
      assert FileOk(disk, owner, i, inodes[i]);
      if inodes[i].addrs[NDIRECT] != b {
        var bn :| 0 <= bn < MAXFILE && Addr(disk, inodes[i], bn) == b;
        assert BlockOk(disk, owner, i, inodes[i], bn);
      }
    }
  }

  /** No block is reached twice, as data or as a block of addresses. */
  lemma ReachedOnce(sb: Super, disk: Disk, inodes: Inodes, owner: Owners, i: nat, bn: nat, j: nat, bm: nat)
    requires Owned(sb, disk, inodes, owner) && i in inodes && j in inodes && bn < MAXFILE && bm < MAXFILE
    ensures |inodes[i].addrs| == |inodes[j].addrs| == NDIRECT + 1
    ensures Addr(disk, inodes[i], bn) == Addr(disk, inodes[j], bm) != 0 ==> i == j && bn == bm
    ensures inodes[i].addrs[NDIRECT] == inodes[j].addrs[NDIRECT] != 0 ==> i == j
    ensures Addr(disk, inodes[i], bn) == inodes[j].addrs[NDIRECT] ==> inodes[j].addrs[NDIRECT] == 0
  {
    assert FileOk(disk, owner, i, inodes[i]) && FileOk(disk, owner, j, inodes[j]);
    assert BlockOk(disk, owner, i, inodes[i], bn) && BlockOk(disk, owner, j, inodes[j], bm);
  }

  /** Clear bits below block n. */
  ghost function FreeBelow(sb: Super, disk: Disk, n: nat): nat {
    if n == 0 then 0 else FreeBelow(sb, disk, n - 1) + if InUse(sb, disk, n - 1) then 0 else 1
  }

  ghost function OwnedBelow(owner: Owners, n: nat): set<nat> {
    set b | b in owner && b < n
  }

  lemma {:induction false} CountBelow(sb: Super, disk: Disk, owner: Owners, n: nat)
    requires BitsOk(sb, disk, owner) && n <= sb.size
    ensures FreeBelow(sb, disk, n) + |OwnedBelow(owner, n)| == n
  {
    if n > 0 {
      CountBelow(sb, disk, owner, n - 1);
      assert BitOk(sb, disk, owner, n - 1);
      assert OwnedBelow(owner, n) == OwnedBelow(owner, n - 1) + if n - 1 in owner then {n - 1} else {};
    } else {
      assert OwnedBelow(owner, 0) == {};
    }
  }

  /** Free and owned blocks together are all blocks. */
  lemma FreePlusOwned(sb: Super, disk: Disk, inodes: Inodes, owner: Owners)
    requires Repr(sb, disk, inodes, owner)
    ensures FreeBelow(sb, disk, sb.size) + |owner| == sb.size
  {
    CountBelow(sb, disk, owner, sb.size);
    forall b | b in owner ensures b < sb.size {
      assert OwnerOk(sb, disk, inodes, owner, b);
    }
    assert OwnedBelow(owner, sb.size) == owner.Keys;
  }

  // ----- sets of blocks ---------------------------------------------------

  lemma {:induction false} SubsetCount(a: set<nat>, b: set<nat>)
    requires a <= b
    ensures |a| <= |b|
    decreases a
  {
    if x :| x in a {
      SubsetCount(a - {x}, b - {x});
    }
  }

  lemma SubsetEqual(a: set<nat>, b: set<nat>)
    requires a <= b && |a| == |b|
    ensures a == b
  {
    if x :| x in b && x !in a {
      SubsetCount(a + {x}, b);
      assert false;
    }
  }

  lemma {:induction false} BoundedCount(a: set<nat>, n: nat)
    requires forall b :: b in a ==> b < n
    ensures |a| <= n
    decreases n
  {
    if n == 0 {
      assert a == {};
    } else {
      BoundedCount(a - {n - 1}, n - 1);
      assert a <= (a - {n - 1}) + {n - 1};
      SubsetCount(a, (a - {n - 1}) + {n - 1});
    }
  }

  /** The bitmap blocks of a set of blocks. */
  ghost function BitmapOf(sb: Super, s: set<nat>): set<nat> {
    set b | b in s :: BBlock(sb, b)
  }

  lemma BitmapMeta(sb: Super, disk: Disk, owner: Owners, e: set<nat>)
    requires BitsOk(sb, disk, owner) && forall b :: b in e ==> b < sb.size
    ensures forall x :: x in BitmapOf(sb, e) ==> x in owner && owner[x] == Meta
  {
    forall x | x in BitmapOf(sb, e) ensures x in owner && owner[x] == Meta {
      var b :| b in e && x == BBlock(sb, b);
      assert BitOk(sb, disk, owner, b);
    }
  }

  // ----- taking blocks ----------------------------------------------------

  /** balloc: the bit set, the block zeroed. */
  function Allocated(sb: Super, disk: Disk, b: nat): Disk
    requires BBlock(sb, b) in disk && |disk[BBlock(sb, b)]| == BSIZE
  {
    Marked(sb, disk, b)[b := Zeros()]
  }

  lemma AllocBits(sb: Super, disk: Disk, inodes: Inodes, owner: Owners, b: nat, o: Owner)
    requires Repr(sb, disk, inodes, owner) && b < sb.size && b !in owner
    ensures BBlock(sb, b) in disk && |disk[BBlock(sb, b)]| == BSIZE && BBlock(sb, b) in owner && owner[BBlock(sb, b)] == Meta
    ensures DiskOk(sb, Allocated(sb, disk, b))
    ensures BitsOk(sb, Allocated(sb, disk, b), owner[b := o])
  {
    assert BitOk(sb, disk, owner, b);
    var disk', owner' := Allocated(sb, disk, b), owner[b := o];
    forall c | 0 <= c < sb.size ensures BitOk(sb, disk', owner', c) {
      assert BitOk(sb, disk, owner, c);
      MarkedBits(sb, disk, b, c);
      assert InUse(sb, disk', c) <==> InUse(sb, Marked(sb, disk, b), c);
    }
  }

  /** The indirect blocks of other files stay. */
  ghost predicate OthersKept(disk: Disk, disk': Disk, owner: Owners, i: nat) {
    forall c :: c in owner && owner[c].Indirect? && owner[c].i != i ==> c in disk && c in disk' && disk'[c] == disk[c]
  }

  lemma FileKept(disk: Disk, disk': Disk, owner: Owners, owner': Owners, i: nat, j: nat, ino: Inode)
    requires FileOk(disk, owner, j, ino) && i != j && OthersKept(disk, disk', owner, i)
    requires forall b :: b in owner && Is(owner[b], j) ==> b in owner' && owner'[b] == owner[b]
    ensures FileOk(disk', owner', j, ino)
    ensures forall bn :: 0 <= bn < MAXFILE ==> Addr(disk', ino, bn) == Addr(disk, ino, bn)
  {
    forall bn | 0 <= bn < MAXFILE ensures BlockOk(disk', owner', j, ino, bn) && Addr(disk', ino, bn) == Addr(disk, ino, bn) {
      assert BlockOk(disk, owner, j, ino, bn);
    }
  }

  /** Block b becomes block bn of file i, whose other blocks stay. */
  ghost predicate Attaches(disk: Disk, ino: Inode, disk': Disk, ino': Inode, bn: nat, b: nat) {
    && |ino.addrs| == |ino'.addrs| == NDIRECT + 1 && bn < MAXFILE
    && ino'.size == ino.size && ino'.addrs[NDIRECT] == ino.addrs[NDIRECT]
    && Addr(disk, ino, bn) == 0
    && (forall k :: 0 <= k < MAXFILE ==> Addr(disk', ino', k) == if k == bn then b else Addr(disk, ino, k))
  }

  lemma AttachOwners(sb: Super, disk: Disk, inodes: Inodes, owner: Owners, i: nat, bn: nat, b: nat, disk': Disk,
                     ino': Inode)
    requires Owned(sb, disk, inodes, owner) && i in inodes && 0 < b < sb.size && b !in owner
    requires Attaches(disk, inodes[i], disk', ino', bn, b) && OthersKept(disk, disk', owner, i)
    ensures OwnersOk(sb, disk', inodes[i := ino'], owner[b := Data(i, bn)])
  {
    var inodes', owner' := inodes[i := ino'], owner[b := Data(i, bn)];
    forall c | c in owner' ensures OwnerOk(sb, disk', inodes', owner', c) {
      if c != b {
        assert OwnerOk(sb, disk, inodes, owner, c);
        if owner[c].Data? && owner[c].i != i {
          FileKept(disk, disk', owner, owner', i, owner[c].i, inodes[owner[c].i]);
        }
      }
    }
  }

  lemma Attach(sb: Super, disk: Disk, inodes: Inodes, owner: Owners, i: nat, bn: nat, b: nat, disk': Disk, ino': Inode)
    requires Owned(sb, disk, inodes, owner) && i in inodes && 0 < b < sb.size && b !in owner && DiskOk(sb, disk')
    requires Attaches(disk, inodes[i], disk', ino', bn, b) && OthersKept(disk, disk', owner, i)
    ensures Owned(sb, disk', inodes[i := ino'], owner[b := Data(i, bn)])
  {
    var inodes', owner' := inodes[i := ino'], owner[b := Data(i, bn)];
    assert FileOk(disk, owner, i, inodes[i]);
    forall j | j in inodes' ensures FileOk(disk', owner', j, inodes'[j]) {
      if j == i {
        forall k | 0 <= k < MAXFILE ensures BlockOk(disk', owner', i, ino', k) {
          assert BlockOk(disk, owner, i, inodes[i], k);
        }
      } else {
        assert FileOk(disk, owner, j, inodes[j]);
        FileKept(disk, disk', owner, owner', i, j, inodes[j]);
      }
    }
    AttachOwners(sb, disk, inodes, owner, i, bn, b, disk', ino');
    MetaKept(sb, owner, owner');
  }

  /** Block b becomes the block of addresses of file i.  It is zero, so the file has no block
      more. */
  lemma AttachIndirect(sb: Super, disk: Disk, inodes: Inodes, owner: Owners, i: nat, b: nat, disk': Disk)
    requires Owned(sb, disk, inodes, owner) && i in inodes && 0 < b < sb.size && b !in owner && DiskOk(sb, disk')
    requires |inodes[i].addrs| == NDIRECT + 1 && inodes[i].addrs[NDIRECT] == 0
    requires OthersKept(disk, disk', owner, i) && b in disk' && disk'[b] == Zeros()
    ensures Owned(sb, disk', inodes[i := PutAddr(inodes[i], NDIRECT, b)], owner[b := Indirect(i)])
    ensures SameAddrs(disk, inodes[i], disk', PutAddr(inodes[i], NDIRECT, b))
  {
    var ino, ino' := inodes[i], PutAddr(inodes[i], NDIRECT, b);
    var inodes', owner' := inodes[i := ino'], owner[b := Indirect(i)];
    MetaKept(sb, owner, owner');
    assert FileOk(disk, owner, i, ino);
    forall j | j in inodes' ensures FileOk(disk', owner', j, inodes'[j]) {
      if j == i {
        forall k | 0 <= k < MAXFILE ensures BlockOk(disk', owner', i, ino', k) {
          assert BlockOk(disk, owner, i, ino, k);
        }
      } else {
        assert FileOk(disk, owner, j, inodes[j]);
        FileKept(disk, disk', owner, owner', i, j, inodes[j]);
      }
    }
    forall c | c in owner' ensures OwnerOk(sb, disk', inodes', owner', c) {
      if c != b {
        assert OwnerOk(sb, disk, inodes, owner, c);
        if owner[c].Data? && owner[c].i != i {
          FileKept(disk, disk', owner, owner', i, owner[c].i, inodes[owner[c].i]);
        }
      }
    }
  }

  function PutAddr(ino: Inode, k: nat, b: nat): Inode
    requires k < |ino.addrs|
  {
    ino.(addrs := ino.addrs[k := b])
  }

  lemma AllocDirect(sb: Super, disk: Disk, inodes: Inodes, owner: Owners, i: nat, bn: nat, b: nat)
    requires Repr(sb, disk, inodes, owner) && i in inodes && b < sb.size && b !in owner
    requires |inodes[i].addrs| == NDIRECT + 1 && bn < NDIRECT && inodes[i].addrs[bn] == 0
    ensures BBlock(sb, b) in disk && |disk[BBlock(sb, b)]| == BSIZE
    ensures Repr(sb, Allocated(sb, disk, b), inodes[i := PutAddr(inodes[i], bn, b)], owner[b := Data(i, bn)])
    ensures Attaches(disk, inodes[i], Allocated(sb, disk, b), PutAddr(inodes[i], bn, b), bn, b)
  {
    AllocBits(sb, disk, inodes, owner, b, Data(i, bn));
    var disk', ino, ino' := Allocated(sb, disk, b), inodes[i], PutAddr(inodes[i], bn, b);
    assert FileOk(disk, owner, i, ino);
    forall c | c in owner && owner[c].Indirect? ensures c in disk && c in disk' && disk'[c] == disk[c] {
      assert OwnerOk(sb, disk, inodes, owner, c);
    }
    forall k | 0 <= k < MAXFILE ensures Addr(disk', ino', k) == if k == bn then b else Addr(disk, ino, k) {
    }
    Attach(sb, disk, inodes, owner, i, bn, b, disk', ino');
  }

  lemma AllocIndirect(sb: Super, disk: Disk, inodes: Inodes, owner: Owners, i: nat, b: nat)
    requires Repr(sb, disk, inodes, owner) && i in inodes && b < sb.size && b !in owner
    requires |inodes[i].addrs| == NDIRECT + 1 && inodes[i].addrs[NDIRECT] == 0
    ensures BBlock(sb, b) in disk && |disk[BBlock(sb, b)]| == BSIZE
    ensures Repr(sb, Allocated(sb, disk, b), inodes[i := PutAddr(inodes[i], NDIRECT, b)], owner[b := Indirect(i)])
    ensures SameAddrs(disk, inodes[i], Allocated(sb, disk, b), PutAddr(inodes[i], NDIRECT, b))
  {
    AllocBits(sb, disk, inodes, owner, b, Indirect(i));
    var disk' := Allocated(sb, disk, b);
    forall c | c in owner && owner[c].Indirect? ensures c in disk && c in disk' && disk'[c] == disk[c] {
      assert OwnerOk(sb, disk, inodes, owner, c);
    }
    AttachIndirect(sb, disk, inodes, owner, i, b, disk');
  }

  ghost predicate SameAddrs(disk: Disk, ino: Inode, disk': Disk, ino': Inode) {
    && |ino.addrs| == |ino'.addrs| == NDIRECT + 1
    && (forall k :: 0 <= k < MAXFILE ==> Addr(disk', ino', k) == Addr(disk, ino, k))
  }

  function StoreWord(disk: Disk, d: nat, j: nat, x: nat): Disk
    requires d in disk && |disk[d]| == BSIZE && j < NINDIRECT && x < WORD
  {
    disk[d := PutWord(disk[d], j, x)]
  }

  /** Block b becomes block bn of file i, by an entry in its block of addresses d. */
  lemma AttachThrough(sb: Super, disk: Disk, inodes: Inodes, owner: Owners, i: nat, bn: nat, b: nat, d: nat, disk1: Disk)
    requires Owned(sb, disk, inodes, owner) && i in inodes && 0 < b < sb.size && b !in owner && DiskOk(sb, disk1)
    requires |inodes[i].addrs| == NDIRECT + 1 && NDIRECT <= bn < MAXFILE && d == inodes[i].addrs[NDIRECT] != 0
    requires Addr(disk, inodes[i], bn) == 0 && d in disk && d in disk1 && disk1[d] == disk[d] && OthersKept(disk, disk1, owner, i)
    ensures d in owner && owner[d] == Indirect(i) && |disk1[d]| == BSIZE
    ensures Owned(sb, StoreWord(disk1, d, bn - NDIRECT, b), inodes, owner[b := Data(i, bn)])
    ensures Attaches(disk, inodes[i], StoreWord(disk1, d, bn - NDIRECT, b), inodes[i], bn, b)
  {
    assert FileOk(disk, owner, i, inodes[i]);
    assert OwnerOk(sb, disk, inodes, owner, d);
    var disk', ino := StoreWord(disk1, d, bn - NDIRECT, b), inodes[i];
    forall k | 0 <= k < MAXFILE ensures Addr(disk', ino, k) == if k == bn then b else Addr(disk, ino, k) {
      if k >= NDIRECT {
        WordPut(disk[d], bn - NDIRECT, b, k - NDIRECT);
      }
    }
    Attach(sb, disk, inodes, owner, i, bn, b, disk', ino);
    assert inodes[i := ino] == inodes;
  }

  lemma AllocThrough(sb: Super, disk: Disk, inodes: Inodes, owner: Owners, i: nat, bn: nat, b: nat, d: nat)
    requires Repr(sb, disk, inodes, owner) && i in inodes && b < sb.size && b !in owner
    requires |inodes[i].addrs| == NDIRECT + 1 && NDIRECT <= bn < MAXFILE && d == inodes[i].addrs[NDIRECT] != 0
    requires Addr(disk, inodes[i], bn) == 0
    ensures BBlock(sb, b) in disk && |disk[BBlock(sb, b)]| == BSIZE
    ensures var disk1 := Allocated(sb, disk, b);
      && d in disk1 && |disk1[d]| == BSIZE
      && Repr(sb, StoreWord(disk1, d, bn - NDIRECT, b), inodes, owner[b := Data(i, bn)])
      && Attaches(disk, inodes[i], StoreWord(disk1, d, bn - NDIRECT, b), inodes[i], bn, b)
  {
    AllocBits(sb, disk, inodes, owner, b, Data(i, bn));
    assert FileOk(disk, owner, i, inodes[i]);
    var disk1 := Allocated(sb, disk, b);
    forall c | c in owner && owner[c].Indirect? ensures c in disk && c in disk1 && disk1[c] == disk[c] {
      assert OwnerOk(sb, disk, inodes, owner, c);
    }
    AttachThrough(sb, disk, inodes, owner, i, bn, b, d, disk1);
    BitsKept(sb, disk1, StoreWord(disk1, d, bn - NDIRECT, b), owner[b := Data(i, bn)], d);
  }

  /** Storing in a block that is not metadata leaves the bitmap. */
  lemma BitsKept(sb: Super, disk: Disk, disk': Disk, owner: Owners, d: nat)
    requires BitsOk(sb, disk, owner) && (d in owner ==> owner[d] != Meta)
    requires forall c :: c != d && c in disk ==> c in disk' && disk'[c] == disk[c]
    requires forall c :: c != d && c in disk' ==> c in disk
    ensures BitsOk(sb, disk', owner)
  {
    forall c | 0 <= c < sb.size ensures BitOk(sb, disk', owner, c) {
      assert BitOk(sb, disk, owner, c);
    }
  }

  /** What bmap promises: block bn of file i is there, zeroed if it is new, and the rest is as
      it was. */
  ghost predicate Mapped(sb: Super, disk: Disk, inodes: Inodes, owner: Owners, i: nat, bn: nat,
                         disk': Disk, ino': Inode, owner': Owners)
    requires i in inodes
  {
    && Owned(sb, disk', inodes[i := ino'], owner')
    && |inodes[i].addrs| == |ino'.addrs| == NDIRECT + 1 && bn < MAXFILE && ino'.size == inodes[i].size
    && (inodes[i].addrs[NDIRECT] != 0 || bn < NDIRECT ==> ino'.addrs[NDIRECT] == inodes[i].addrs[NDIRECT])
    && (forall k :: 0 <= k < MAXFILE && k != bn ==> Addr(disk', ino', k) == Addr(disk, inodes[i], k))
    && var a := Addr(disk', ino', bn);
    && a != 0
    && (if Addr(disk, inodes[i], bn) != 0 then disk' == disk && ino' == inodes[i] && owner' == owner
        else a in disk' && disk'[a] == Zeros())
    && Kept(disk, disk', owner, owner', i)
  }

  /** Owners and data stay; in an indirect block of file i a new address may appear. */
  ghost predicate Kept(disk: Disk, disk': Disk, owner: Owners, owner': Owners, i: nat) {
    && (forall c :: c in owner ==> c in owner' && owner'[c] == owner[c])
    && FirstFit(owner, owner')
    && (forall c :: c in owner && owner[c] != Meta && owner[c] != Indirect(i) && c in disk ==>
          c in disk' && disk'[c] == disk[c])
  }

  /** Blocks are taken from the low end. */
  ghost predicate FirstFit(owner: Owners, owner': Owners) {
    forall b {:trigger UsedBelow(owner', b)} :: b in owner' && b !in owner ==> UsedBelow(owner', b)
  }

  lemma FirstFitTrans(owner: Owners, owner1: Owners, owner2: Owners)
    requires FirstFit(owner, owner1) && FirstFit(owner1, owner2) && forall c :: c in owner1 ==> c in owner2
    ensures FirstFit(owner, owner2)
  {
    forall b | b in owner2 && b !in owner ensures UsedBelow(owner2, b) {
      if b in owner1 { assert UsedBelow(owner1, b); }
    }
  }

  lemma AllocKept(sb: Super, disk: Disk, owner: Owners, b: nat, o: Owner, i: nat)
    requires BBlock(sb, b) in disk && |disk[BBlock(sb, b)]| == BSIZE && b !in owner && UsedBelow(owner, b)
    requires BBlock(sb, b) in owner && owner[BBlock(sb, b)] == Meta
    ensures Kept(disk, Allocated(sb, disk, b), owner, owner[b := o], i)
  {
  }

  /** Every block below n is in use. */
  ghost predicate UsedBelow(owner: Owners, n: nat) {
    forall c :: 0 <= c < n ==> c in owner
  }

  lemma {:induction false} UsedBelowCount(owner: Owners, n: nat)
    requires UsedBelow(owner, n)
    ensures |owner| >= n
    decreases n
  {
    if n > 0 {
      var rest := owner - {n - 1};
      assert owner.Keys == rest.Keys + {n - 1};
      assert |owner.Keys| == |rest.Keys| + 1;
      UsedBelowCount(rest, n - 1);
    }
  }

  lemma OwnerCount(owner: Owners, b: nat, o: Owner)
    requires b !in owner
    ensures |owner[b := o]| == |owner| + 1
  {
    assert owner[b := o].Keys == owner.Keys + {b};
    assert |owner[b := o].Keys| == |owner.Keys| + 1;
  }

  lemma InBitmapBlock(sb: Super, b0: nat, bi: nat)
    requires b0 % BPB == 0 && bi < BPB
    ensures BBlock(sb, b0 + bi) == BBlock(sb, b0) && ByteOf(b0 + bi) == bi / 8 && BitOf(b0 + bi) == bi % 8
  {
  }

  // ----- inode blocks -----------------------------------------------------

  /** The inode blocks are as they were. */
  ghost predicate TableSame(disk: Disk, disk': Disk, owner: Owners) {
    forall b :: b in owner && owner[b] == Table && b in disk ==> b in disk' && disk'[b] == disk[b]
  }

  /** With the inode blocks, the inodes on disk are as they were. */
  lemma TableKept(sb: Super, disk: Disk, inodes: Inodes, owner: Owners, disk': Disk)
    requires Owned(sb, disk, inodes, owner) && TableSame(disk, disk', owner)
    ensures forall k :: k in inodes ==> OnDisk(sb, disk', k) == OnDisk(sb, disk, k)
  {
    forall k | k in inodes ensures OnDisk(sb, disk', k) == OnDisk(sb, disk, k) {
      assert OwnerOk(sb, disk, inodes, owner, IBlock(sb, k));
    }
  }

  /** An inode fits its place on disk. */
  lemma AddrsFit(sb: Super, disk: Disk, inodes: Inodes, owner: Owners, i: nat)
    requires Owned(sb, disk, inodes, owner) && i in inodes
    ensures |inodes[i].addrs| == NDIRECT + 1 && forall k :: 0 <= k <= NDIRECT ==> inodes[i].addrs[k] < WORD
  {
    assert FileOk(disk, owner, i, inodes[i]);
    forall k | 0 <= k <= NDIRECT ensures inodes[i].addrs[k] < WORD {
      if inodes[i].addrs[k] != 0 {
        if k < NDIRECT {
          assert BlockOk(disk, owner, i, inodes[i], k);
        }
        assert OwnerOk(sb, disk, inodes, owner, inodes[i].addrs[k]);
      }
    }
  }

  /** What is in a block of no file does not matter to the files. */
  lemma OtherBlockOwned(sb: Super, disk: Disk, inodes: Inodes, owner: Owners, d: nat, x: Bytes)
    requires Owned(sb, disk, inodes, owner) && (d in owner ==> !InFile(owner[d])) && |x| == BSIZE
    ensures Owned(sb, disk[d := x], inodes, owner)
    ensures forall j :: j in inodes ==> SameAddrs(disk, inodes[j], disk[d := x], inodes[j])
  {
    var disk' := disk[d := x];
    forall j | j in inodes ensures FileOk(disk', owner, j, inodes[j]) && SameAddrs(disk, inodes[j], disk', inodes[j]) {
      assert FileOk(disk, owner, j, inodes[j]);
      forall k | 0 <= k < MAXFILE
        ensures BlockOk(disk', owner, j, inodes[j], k) && Addr(disk', inodes[j], k) == Addr(disk, inodes[j], k)
      {
        assert BlockOk(disk, owner, j, inodes[j], k);
      }
    }
    forall c | c in owner ensures OwnerOk(sb, disk', inodes, owner, c) {
      assert OwnerOk(sb, disk, inodes, owner, c);
    }
  }

  /** Nor does it to the bitmap, in a free block or an inode block. */
  lemma OtherBlockAny(sb: Super, disk: Disk, inodes: Inodes, owner: Owners, d: nat, x: Bytes)
    requires Repr(sb, disk, inodes, owner) && (d in owner ==> owner[d] == Table) && |x| == BSIZE
    ensures Repr(sb, disk[d := x], inodes, owner)
    ensures forall j :: j in inodes ==> SameAddrs(disk, inodes[j], disk[d := x], inodes[j])
  {
    OtherBlockOwned(sb, disk, inodes, owner, d, x);
    BitsKept(sb, disk, disk[d := x], owner, d);
  }

  // ----- giving blocks back -----------------------------------------------

  lemma FreeBits(sb: Super, disk: Disk, inodes: Inodes, owner: Owners, b: nat)
    requires Repr(sb, disk, inodes, owner) && b in owner && InFile(owner[b])
    ensures InUse(sb, disk, b) && DiskOk(sb, Cleared(sb, disk, b)) && BitsOk(sb, Cleared(sb, disk, b), owner - {b})
    ensures BBlock(sb, b) in owner && owner[BBlock(sb, b)] == Meta
  {
    assert OwnerOk(sb, disk, inodes, owner, b);
    assert BitOk(sb, disk, owner, b);
    var disk', owner' := Cleared(sb, disk, b), owner - {b};
    forall c | 0 <= c < sb.size ensures BitOk(sb, disk', owner', c) {
      assert BitOk(sb, disk, owner, c);
      ClearedBits(sb, disk, b, c);
    }
  }

  /** File block bn of file i, which counts as empty, goes. */
  ghost predicate Detaches(disk: Disk, ino: Inode, disk': Disk, ino': Inode, bn: nat) {
    && |ino.addrs| == |ino'.addrs| == NDIRECT + 1 && bn < MAXFILE
    && ino'.size == ino.size == 0 && ino'.addrs[NDIRECT] == ino.addrs[NDIRECT]
    && (forall k :: 0 <= k < MAXFILE ==> Addr(disk', ino', k) == if k == bn then 0 else Addr(disk, ino, k))
  }

  lemma Detach(sb: Super, disk: Disk, inodes: Inodes, owner: Owners, i: nat, bn: nat, b: nat, disk': Disk, ino': Inode)
    requires Repr(sb, disk, inodes, owner) && i in inodes && b in owner && owner[b] == Data(i, bn)
    requires Detaches(disk, inodes[i], disk', ino', bn) && OthersKept(disk, disk', owner, i)
    requires DiskOk(sb, disk') && BitsOk(sb, disk', owner - {b})
    ensures Repr(sb, disk', inodes[i := ino'], owner - {b})
  {
    var inodes', owner' := inodes[i := ino'], owner - {b};
    MetaKept(sb, owner, owner');
    assert OwnerOk(sb, disk, inodes, owner, b);
    assert FileOk(disk, owner, i, inodes[i]);
    forall j | j in inodes' ensures FileOk(disk', owner', j, inodes'[j]) {
      if j == i {
        forall k | 0 <= k < MAXFILE ensures BlockOk(disk', owner', i, ino', k) {
          assert BlockOk(disk, owner, i, inodes[i], k);
        }
      } else {
        assert FileOk(disk, owner, j, inodes[j]);
        FileKept(disk, disk', owner, owner', i, j, inodes[j]);
      }
    }
    forall c | c in owner' ensures OwnerOk(sb, disk', inodes', owner', c) {
      assert OwnerOk(sb, disk, inodes, owner, c);
      if owner[c].Data? && owner[c].i != i {
        FileKept(disk, disk', owner, owner', i, owner[c].i, inodes[owner[c].i]);
      }
    }
  }

  lemma FreeDirect(sb: Super, disk: Disk, inodes: Inodes, owner: Owners, i: nat, bn: nat)
    requires Repr(sb, disk, inodes, owner) && i in inodes && inodes[i].size == 0
    requires |inodes[i].addrs| == NDIRECT + 1 && bn < NDIRECT && inodes[i].addrs[bn] != 0
    ensures
      var b := inodes[i].addrs[bn];
      && b in owner && owner[b] == Data(i, bn) && InUse(sb, disk, b)
      && Repr(sb, Cleared(sb, disk, b), inodes[i := PutAddr(inodes[i], bn, 0)], owner - {b})
  {
    var ino, b := inodes[i], inodes[i].addrs[bn];
    assert FileOk(disk, owner, i, ino) && BlockOk(disk, owner, i, ino, bn);
    FreeBits(sb, disk, inodes, owner, b);
    var disk', ino' := Cleared(sb, disk, b), PutAddr(ino, bn, 0);
    forall c | c in owner && owner[c].Indirect? ensures c in disk && c in disk' && disk'[c] == disk[c] {
      assert OwnerOk(sb, disk, inodes, owner, c);
    }
    forall k | 0 <= k < MAXFILE ensures Addr(disk', ino', k) == if k == bn then 0 else Addr(disk, ino, k) {
    }
    Detach(sb, disk, inodes, owner, i, bn, b, disk', ino');
  }

  /** The same behind the indirect block d, as if its entry were zeroed as well. */
  lemma FreeThrough(sb: Super, disk: Disk, inodes: Inodes, owner: Owners, i: nat, bn: nat, d: nat)
    requires Repr(sb, disk, inodes, owner) && i in inodes && inodes[i].size == 0
    requires |inodes[i].addrs| == NDIRECT + 1 && NDIRECT <= bn < MAXFILE && d == inodes[i].addrs[NDIRECT] != 0
    requires Addr(disk, inodes[i], bn) != 0
    ensures
      var b := Addr(disk, inodes[i], bn);
      && b in owner && owner[b] == Data(i, bn) && InUse(sb, disk, b) && b != d
      && d in Cleared(sb, disk, b) && |Cleared(sb, disk, b)[d]| == BSIZE
      && Repr(sb, StoreWord(Cleared(sb, disk, b), d, bn - NDIRECT, 0), inodes, owner - {b})
  {
    var ino, b := inodes[i], Addr(disk, inodes[i], bn);
    assert FileOk(disk, owner, i, ino) && BlockOk(disk, owner, i, ino, bn);
    assert OwnerOk(sb, disk, inodes, owner, d);
    FreeBits(sb, disk, inodes, owner, b);
    var disk1 := Cleared(sb, disk, b);
    assert d in disk && |disk[d]| == BSIZE && disk1[d] == disk[d];
    var disk' := StoreWord(disk1, d, bn - NDIRECT, 0);
    forall c | c in owner && owner[c].Indirect? && owner[c].i != i ensures c in disk && c in disk' && disk'[c] == disk[c] {
      assert OwnerOk(sb, disk, inodes, owner, c);
    }
    forall k | 0 <= k < MAXFILE ensures Addr(disk', ino, k) == if k == bn then 0 else Addr(disk, ino, k) {
      if k >= NDIRECT {
        WordPut(disk[d], bn - NDIRECT, 0, k - NDIRECT);
      }
    }
    BitsKept(sb, disk1, disk', owner - {b}, d);
    Detach(sb, disk, inodes, owner, i, bn, b, disk', ino);
    assert inodes[i := ino] == inodes;
  }

  /** The emptied indirect block itself. */
  lemma FreeIndirect(sb: Super, disk: Disk, inodes: Inodes, owner: Owners, i: nat, d: nat)
    requires Repr(sb, disk, inodes, owner) && i in inodes && inodes[i].size == 0
    requires |inodes[i].addrs| == NDIRECT + 1 && d == inodes[i].addrs[NDIRECT] != 0
    requires forall k :: NDIRECT <= k < MAXFILE ==> Addr(disk, inodes[i], k) == 0
    ensures d in owner && owner[d] == Indirect(i) && InUse(sb, disk, d)
    ensures Repr(sb, Cleared(sb, disk, d), inodes[i := PutAddr(inodes[i], NDIRECT, 0)], owner - {d})
  {
    var ino := inodes[i];
    assert FileOk(disk, owner, i, ino);
    FreeBits(sb, disk, inodes, owner, d);
    var disk', ino' := Cleared(sb, disk, d), PutAddr(ino, NDIRECT, 0);
    var inodes', owner' := inodes[i := ino'], owner - {d};
    MetaKept(sb, owner, owner');
    forall c | c in owner && owner[c].Indirect? ensures c in disk && c in disk' && disk'[c] == disk[c] {
      assert OwnerOk(sb, disk, inodes, owner, c);
    }
    forall j | j in inodes' ensures FileOk(disk', owner', j, inodes'[j]) {
      if j == i {
        forall k | 0 <= k < MAXFILE ensures BlockOk(disk', owner', i, ino', k) {
          assert BlockOk(disk, owner, i, ino, k);
        }
      } else {
        assert FileOk(disk, owner, j, inodes[j]);
        FileKept(disk, disk', owner, owner', i, j, inodes[j]);
      }
    }
    forall c | c in owner' ensures OwnerOk(sb, disk', inodes', owner', c) {
      assert OwnerOk(sb, disk, inodes, owner, c);
      if owner[c].Data? && owner[c].i != i {
        FileKept(disk, disk', owner, owner', i, owner[c].i, inodes[owner[c].i]);
      }
    }
  }

  /** A file may count as shorter than it is. */
  lemma EmptySize(sb: Super, disk: Disk, inodes: Inodes, owner: Owners, i: nat)
    requires Repr(sb, disk, inodes, owner) && i in inodes
    ensures Repr(sb, disk, inodes[i := inodes[i].(size := 0)], owner) && |inodes[i].addrs| == NDIRECT + 1
  {
    var ino' := inodes[i].(size := 0);
    var inodes' := inodes[i := ino'];
    assert FileOk(disk, owner, i, inodes[i]);
    assert forall k :: 0 <= k < MAXFILE ==> Addr(disk, ino', k) == Addr(disk, inodes[i], k);
    forall j | j in inodes' ensures FileOk(disk, owner, j, inodes'[j]) {
      assert FileOk(disk, owner, j, inodes[j]);
      forall k | 0 <= k < MAXFILE ensures BlockOk(disk, owner, j, inodes'[j], k) {
        assert BlockOk(disk, owner, j, inodes[j], k);
      }
    }
    forall c | c in owner ensures OwnerOk(sb, disk, inodes', owner, c) {
      assert OwnerOk(sb, disk, inodes, owner, c);
    }
  }

  /** Only blocks of file i have gone. */
  ghost predicate Shrunk(owner: Owners, owner': Owners, i: nat) {
    && (forall b :: b in owner' ==> b in owner && owner'[b] == owner[b])
    && (forall b :: b in owner && !Is(owner[b], i) ==> b in owner')
  }

  /** No block but the bitmap's has changed. */
  ghost predicate BlocksSame(disk: Disk, disk': Disk, owner: Owners) {
    forall b :: b in owner && owner[b] != Meta && b in disk ==> b in disk' && disk'[b] == disk[b]
  }

  function Without(owner: Owners, i: nat): Owners {
    map b | b in owner && !Is(owner[b], i) :: owner[b]
  }

  /** When no block of the file is left, none of its owners is. */
  lemma AllGone(sb: Super, disk: Disk, inodes: Inodes, owner: Owners, owner0: Owners, i: nat)
    requires Repr(sb, disk, inodes, owner) && i in inodes && Shrunk(owner0, owner, i)
    requires |inodes[i].addrs| == NDIRECT + 1 && forall k :: 0 <= k <= NDIRECT ==> inodes[i].addrs[k] == 0
    ensures owner == Without(owner0, i)
  {
    forall b | b in owner ensures !Is(owner[b], i) {
      assert OwnerOk(sb, disk, inodes, owner, b);
    }
  }

  lemma ClearedSame(sb: Super, disk: Disk, owner: Owners, b: nat)
    requires InUse(sb, disk, b) && BBlock(sb, b) in owner && owner[BBlock(sb, b)] == Meta
    ensures BlocksSame(disk, Cleared(sb, disk, b), owner)
  {
  }

  /** The word that itrunc leaves in the indirect block, which it does not write, against
      the zero of the block map: the two differ in block d only. */
  lemma ClearedBut(sb: Super, disk: Disk, disk': Disk, d: nat, b: nat)
    requires InUse(sb, disk, b) && d in disk && d in disk' && disk' == disk[d := disk'[d]] && BBlock(sb, b) != d
    ensures InUse(sb, disk', b) && Cleared(sb, disk', b) == Cleared(sb, disk, b)[d := disk'[d]]
  {
  }

  lemma WordsCleared(v: Bytes, j: nat, a: Bytes)
    requires |v| == |a| == BSIZE && j < NINDIRECT
    requires forall k :: 0 <= k < NINDIRECT ==> Word(v, k) == if k < j then 0 else Word(a, k)
    ensures forall k :: 0 <= k < NINDIRECT ==> Word(PutWord(v, j, 0), k) == if k < j + 1 then 0 else Word(a, k)
  {
    forall k | 0 <= k < NINDIRECT ensures Word(PutWord(v, j, 0), k) == if k < j + 1 then 0 else Word(a, k) {
      WordPut(v, j, 0, k);
    }
  }

  /** itrunc is behind the block of addresses d, at entry n.  The block itself is left as it is,
      a: the block map is that of `view`, where the entries passed are zero. */
  ghost predicate TruncAt(sb: Super, view: Disk, disk: Disk, inodes: Inodes, owner: Owners, i: nat, d: nat, a: Bytes, n: nat)
  {
    && Repr(sb, view, inodes, owner) && i in inodes && inodes[i].size == 0
    && |inodes[i].addrs| == NDIRECT + 1 && d == inodes[i].addrs[NDIRECT] != 0
    && d in disk && d in view && disk == view[d := a] && |a| == |view[d]| == BSIZE
    && (forall k :: 0 <= k < NINDIRECT ==> Word(view[d], k) == if k < n then 0 else Word(a, k))
    && d in owner && owner[d] == Indirect(i)
  }

  lemma TruncStep(sb: Super, view: Disk, disk: Disk, inodes: Inodes, owner: Owners, i: nat, d: nat, a: Bytes, n: nat,
                  b: nat)
    requires TruncAt(sb, view, disk, inodes, owner, i, d, a, n) && n < NINDIRECT && b == Word(a, n) != 0
    ensures b in owner && owner[b] == Data(i, NDIRECT + n) && InUse(sb, disk, b) && InUse(sb, view, b)
    ensures BBlock(sb, b) in owner && owner[BBlock(sb, b)] == Meta
    ensures d in Cleared(sb, view, b) && |Cleared(sb, view, b)[d]| == BSIZE
    ensures TruncAt(sb, StoreWord(Cleared(sb, view, b), d, n, 0), Cleared(sb, disk, b), inodes, owner - {b}, i, d, a, n + 1)
  {
    FreeThrough(sb, view, inodes, owner, i, NDIRECT + n, d);
    FreeBits(sb, view, inodes, owner, b);
    ClearedBut(sb, view, disk, d, b);
    WordsCleared(view[d], n, a);
  }

  // ----- what itrunc logs -------------------------------------------------

  ghost function OwnedBy(owner: Owners, i: nat): set<nat> {
    set b | b in owner && Is(owner[b], i)
  }

  /** What itrunc logs. */
  ghost function TruncLogs(sb: Super, owner: Owners, i: nat): set<nat> {
    BitmapOf(sb, OwnedBy(owner, i)) + {IBlock(sb, i)}
  }

  lemma BitmapMore(sb: Super, owner: Owners, owner': Owners, b: nat)
    requires b in owner' && owner'.Keys <= owner.Keys
    ensures BitmapOf(sb, owner.Keys - (owner' - {b}).Keys) == BitmapOf(sb, owner.Keys - owner'.Keys) + {BBlock(sb, b)}
  {
    assert owner.Keys - (owner' - {b}).Keys == (owner.Keys - owner'.Keys) + {b};
  }

  lemma BitmapAll(sb: Super, owner: Owners, owner1: Owners, owner': Owners, i: nat)
    requires owner' == Without(owner, i) && owner'.Keys <= owner1.Keys <= owner.Keys
    ensures BitmapOf(sb, owner.Keys - owner1.Keys) + BitmapOf(sb, owner1.Keys - owner'.Keys) == BitmapOf(sb, OwnedBy(owner, i))
  {
    assert (owner.Keys - owner1.Keys) + (owner1.Keys - owner'.Keys) == OwnedBy(owner, i);
  }

  lemma Truncated(sb: Super, disk: Disk, inodes: Inodes, owner: Owners, owner1: Owners, disk': Disk, inodes': Inodes,
                  owner': Owners, i: nat)
    requires Repr(sb, disk, inodes, owner) && Repr(sb, disk', inodes', owner') && i in inodes && i in inodes'
    requires Shrunk(owner, owner', i) && BlocksSame(disk, disk', owner) && owner'.Keys <= owner1.Keys <= owner.Keys
    requires |inodes'[i].addrs| == NDIRECT + 1 && forall k :: 0 <= k <= NDIRECT ==> inodes'[i].addrs[k] == 0
    ensures owner' == Without(owner, i)
    ensures BitmapOf(sb, owner.Keys - owner1.Keys) + BitmapOf(sb, owner1.Keys - owner'.Keys) == BitmapOf(sb, OwnedBy(owner, i))
    ensures forall k :: k in inodes ==> OnDisk(sb, disk', k) == OnDisk(sb, disk, k)
  {
    AllGone(sb, disk', inodes', owner', owner, i);
    BitmapAll(sb, owner, owner1, owner', i);
    TableKept(sb, disk, inodes, owner, disk');
  }

  /** The blocks of files are as they were. */
  ghost predicate FilesSame(disk: Disk, disk': Disk, owner: Owners) {
    forall b :: b in owner && InFile(owner[b]) && b in disk ==> b in disk' && disk'[b] == disk[b]
  }

  lemma FilesKept(sb: Super, disk: Disk, disk1: Disk, disk2: Disk, inodes: Inodes, owner': Owners, owner: Owners, i: nat)
    requires BlocksSame(disk, disk1, owner) && i in inodes && TableOk(sb, inodes, owner') && Shrunk(owner, owner', i)
    requires IBlock(sb, i) in disk2 && disk2 == disk1[IBlock(sb, i) := disk2[IBlock(sb, i)]]
    ensures FilesSame(disk, disk2, owner)
  {
  }
}
