/**
 The inode cache (fs.c): iget, ilock, iput and ialloc in every interleaving.

 A reference is what iget returns and iput gives up; each has its own number, and where it
 is in its life.  The sleep-lock of an entry is held through a reference.  icache.lock and
 the lock of an inode's block make the steps below atomic.  iget is called for whatever
 number a directory entry holds, so a reference may be asked for to an inode that has no
 links any more, or is free; see `Stale`.
 */
module InodeCache {
  import opened Common

  datatype Key = Key(dev: nat, inum: nat)

  /** An inode on disk: type 0 is a free one. */
  datatype Dinode = Dinode(kind: nat, nlink: nat)

  /** An entry of the cache.  `copy` is the inode as read from disk, good if `valid`. */
  datatype Entry = Entry(key: Key, ref: nat, valid: bool, copy: Dinode, holder: Option<nat>)

  datatype At =
    | Held
    | Locked                 // between ilock and iunlock
    | PutLocked              // iput has the sleep-lock
    | PutCounted(r: nat)     // ... found no links, and read ip->ref
    | PutFreed               // ... truncated the inode and cleared its type on disk
    | PutUnlocked            // ... and released the lock; ip->ref-- is next

  datatype Ref = Ref(e: nat, at: At)

  /** What an iput found: the inode on disk, whether ialloc was handing it out, whether the
      entry was valid, how many other references there were, and whether all of them were
      about to be dropped. */
  datatype Count = Count(inode: Dinode, marked: bool, valid: bool, others: nat, dropping: bool)

  datatype State = State(
    entries: seq<Entry>, disk: map<Key, Dinode>, refs: map<nat, Ref>,
    marked: set<Key>,              // inodes that ialloc has marked and not yet got
    counted: map<nat, Count>)      // history: what the last iput of each entry found

  /** The entry that iget returns: one in use for the inode, or else the first that is not in
      use. */
  predicate Matches(x: Entry, key: Key) {
    x.ref > 0 && x.key == key
  }

  function FirstMatch(es: seq<Entry>, key: Key, i: nat): Option<nat>
    requires i <= |es|
    decreases |es| - i
  {
    if i == |es| then None else if Matches(es[i], key) then Some(i) else FirstMatch(es, key, i + 1)
  }

  function FirstEmpty(es: seq<Entry>, i: nat): Option<nat>
    requires i <= |es|
    decreases |es| - i
  {
    if i == |es| then None else if es[i].ref == 0 then Some(i) else FirstEmpty(es, i + 1)
  }

  function Find(es: seq<Entry>, key: Key): Option<nat> {
    var m := FirstMatch(es, key, 0);
    if m.Some? then m else FirstEmpty(es, 0)
  }

  function Got(es: seq<Entry>, key: Key, e: nat): seq<Entry>
    requires e < |es|
  {
    if Matches(es[e], key) then es[e := es[e].(ref := es[e].ref + 1)]
    else es[e := es[e].(key := key, ref := 1, valid := false)]
  }

  lemma {:induction false} FirstMatchIs(es: seq<Entry>, key: Key, i: nat)
    requires i <= |es|
    ensures match FirstMatch(es, key, i)
            case Some(e) => i <= e < |es| && Matches(es[e], key)
            case None => forall k :: i <= k < |es| ==> !Matches(es[k], key)
    decreases |es| - i
  {
    if i < |es| && !Matches(es[i], key) { FirstMatchIs(es, key, i + 1); }
  }

  lemma {:induction false} FirstEmptyIs(es: seq<Entry>, i: nat)
    requires i <= |es|
    ensures match FirstEmpty(es, i)
            case Some(e) => i <= e < |es| && es[e].ref == 0
            case None => forall k :: i <= k < |es| ==> es[k].ref > 0
    decreases |es| - i
  {
    if i < |es| && es[i].ref > 0 { FirstEmptyIs(es, i + 1); }
  }

  lemma FindIs(es: seq<Entry>, key: Key)
    ensures match Find(es, key)
            case Some(e) => e < |es| && if Matches(es[e], key) then true
                                        else es[e].ref == 0 && forall k :: 0 <= k < |es| ==> !Matches(es[k], key)
            case None => forall k :: 0 <= k < |es| ==> es[k].ref > 0 && !Matches(es[k], key)
  {
    FirstMatchIs(es, key, 0);
    FirstEmptyIs(es, 0);
  }

  /** iget's loop over the table, in place.  It fails only when every entry is in use for
      another inode. */
  class Table {
    var entries: seq<Entry>

    method Iget(dev: nat, inum: nat) returns (ok: bool, e: nat)
      modifies this
      ensures match Find(old(entries), Key(dev, inum))
              case Some(x) => ok && e == x && e < |old(entries)| && entries == Got(old(entries), Key(dev, inum), e)
              case None => !ok && entries == old(entries)
    {
      var empty: Option<nat> := None;
      var i := 0;
      ghost var key := Key(dev, inum);
      FindIs(entries, key);
      while i < |entries|
        invariant i <= |entries| && entries == old(entries)
        invariant FirstMatch(entries, key, 0) == FirstMatch(entries, key, i)
        invariant FirstEmpty(entries, 0) == if empty.Some? then empty else FirstEmpty(entries, i)
        invariant empty.Some? ==> empty.value < |entries| && entries[empty.value].ref == 0
      {
        if entries[i].ref > 0 && entries[i].key.dev == dev && entries[i].key.inum == inum {
          entries := entries[i := entries[i].(ref := entries[i].ref + 1)];
          return true, i;
        }
        if empty == None && entries[i].ref == 0 {
          empty := Some(i);
        }
        i := i + 1;
      }
      if empty == None {
        return false, 0;
      }
      e := empty.value;
      entries := entries[e := entries[e].(key := Key(dev, inum), ref := 1, valid := false)];
      ok := true;
    }
  }

  // ----- steps -------------------------------------------------------------

  /** iget, for whatever inode a directory entry names. */
  predicate CanGet(s: State, k: nat, key: Key) {
    k !in s.refs && key in s.disk && Find(s.entries, key).Some? && Find(s.entries, key).value < |s.entries|
  }

  function DoGet(s: State, k: nat, key: Key): State
    requires CanGet(s, k, key)
  {
    var e := Find(s.entries, key).value;
    s.(entries := Got(s.entries, key, e), refs := s.refs[k := Ref(e, Held)])
  }

  predicate CanMark(s: State, key: Key, kind: nat) {
    key in s.disk && s.disk[key].kind == 0 && kind != 0
  }

  /** ialloc: a free inode gets its type on disk; iget is the next step. */
  function DoMark(s: State, key: Key, kind: nat): State
    requires CanMark(s, key, kind)
  {
    s.(disk := s.disk[key := Dinode(kind, 0)], marked := s.marked + {key})
  }

  predicate CanAllocGet(s: State, k: nat, key: Key) {
    key in s.marked && CanGet(s, k, key)
  }

  function DoAllocGet(s: State, k: nat, key: Key): State
    requires CanAllocGet(s, k, key)
  {
    DoGet(s, k, key).(marked := s.marked - {key})
  }

  /** Reference k is at `at`, of an entry in the table. */
  predicate IsAt(s: State, k: nat, at: At) {
    k in s.refs && s.refs[k].at == at && s.refs[k].e < |s.entries|
  }

  function Of(s: State, k: nat): Entry
    requires k in s.refs && s.refs[k].e < |s.entries|
  {
    s.entries[s.refs[k].e]
  }

  function Put(s: State, k: nat, x: Entry, at: At): State
    requires k in s.refs && s.refs[k].e < |s.entries|
  {
    s.(entries := s.entries[s.refs[k].e := x], refs := s.refs[k := s.refs[k].(at := at)])
  }

  predicate CanDup(s: State, k: nat, k': nat) {
    (IsAt(s, k, Held) || IsAt(s, k, Locked)) && k' !in s.refs
  }

  function DoDup(s: State, k: nat, k': nat): State
    requires CanDup(s, k, k')
  {
    var e := s.refs[k].e;
    s.(entries := s.entries[e := s.entries[e].(ref := s.entries[e].ref + 1)], refs := s.refs[k' := Ref(e, Held)])
  }

  /** ilock has the sleep-lock for the taking, and the inode is free: it panics. */
  predicate LockPanics(s: State, k: nat) {
    && IsAt(s, k, Held) && Of(s, k).holder == None && Of(s, k).key in s.disk
    && !Of(s, k).valid && s.disk[Of(s, k).key].kind == 0
  }

  predicate CanLock(s: State, k: nat) {
    IsAt(s, k, Held) && Of(s, k).holder == None && Of(s, k).key in s.disk && !LockPanics(s, k)
  }

  /** ilock: the inode is read from disk unless the copy is good. */
  function DoLock(s: State, k: nat): State
    requires CanLock(s, k)
  {
    var x := Of(s, k);
    Put(s, k, x.(holder := Some(k), valid := true, copy := if x.valid then x.copy else s.disk[x.key]), Locked)
  }

  predicate CanUnlock(s: State, k: nat) {
    IsAt(s, k, Locked)
  }

  function DoUnlock(s: State, k: nat): State
    requires CanUnlock(s, k)
  {
    Put(s, k, Of(s, k).(holder := None), Held)
  }

  predicate CanUpdate(s: State, k: nat) {
    IsAt(s, k, Locked) && Of(s, k).key in s.disk
  }

  /** The holder of the lock changes ip->nlink and calls iupdate. */
  function DoUpdate(s: State, k: nat, nlink: nat): State
    requires CanUpdate(s, k)
  {
    var x := Of(s, k);
    var d := x.copy.(nlink := nlink);
    Put(s, k, x.(copy := d), Locked).(disk := s.disk[x.key := d])
  }

  predicate CanPutLock(s: State, k: nat) {
    IsAt(s, k, Held) && Of(s, k).holder == None
  }

  function DoPutLock(s: State, k: nat): State
    requires CanPutLock(s, k)
  {
    Put(s, k, Of(s, k).(holder := Some(k)), PutLocked)
  }

  predicate CanPutCount(s: State, k: nat) {
    IsAt(s, k, PutLocked) && Of(s, k).key in s.disk && Of(s, k).ref > 0
  }

  ghost function CountNow(s: State, k: nat): Count
    requires CanPutCount(s, k)
  {
    var x := Of(s, k);
    Count(s.disk[x.key], x.key in s.marked, x.valid, x.ref - 1,
          forall j :: j in s.refs && j != k && s.refs[j].e == s.refs[k].e ==> s.refs[j].at == PutUnlocked)
  }

  ghost function DoPutCount(s: State, k: nat): State
    requires CanPutCount(s, k)
  {
    var x := Of(s, k);
    var s' := if x.valid && x.copy.nlink == 0 then Put(s, k, x, PutCounted(x.ref))
              else Put(s, k, x.(holder := None), PutUnlocked);
    s'.(counted := s.counted[s.refs[k].e := CountNow(s, k)])
  }

  predicate CanPutFree(s: State, k: nat) {
    k in s.refs && s.refs[k].at.PutCounted? && s.refs[k].e < |s.entries| && Of(s, k).key in s.disk
  }

  function DoPutFree(s: State, k: nat): State
    requires CanPutFree(s, k)
  {
    var x := Of(s, k);
    if s.refs[k].at.r == 1 then
      var d := x.copy.(kind := 0);
      Put(s, k, x.(copy := d), PutFreed).(disk := s.disk[x.key := d])
    else Put(s, k, x.(holder := None), PutUnlocked)
  }

  predicate CanPutClear(s: State, k: nat) {
    IsAt(s, k, PutFreed)
  }

  function DoPutClear(s: State, k: nat): State
    requires CanPutClear(s, k)
  {
    Put(s, k, Of(s, k).(valid := false, holder := None), PutUnlocked)
  }

  predicate CanPutDrop(s: State, k: nat) {
    IsAt(s, k, PutUnlocked) && Of(s, k).ref > 0
  }

  function DoPutDrop(s: State, k: nat): State
    requires CanPutDrop(s, k)
  {
    var e := s.refs[k].e;
    s.(entries := s.entries[e := s.entries[e].(ref := s.entries[e].ref - 1)], refs := s.refs - {k})
  }

  datatype Label =
    | Lookup(k: nat, key: Key) | Mark(key: Key, kind: nat) | AllocGet(k: nat, key: Key) | Dup(k: nat, k': nat)
    | Lock(k: nat) | Unlock(k: nat) | Update(k: nat, nlink: nat)
    | PutLock(k: nat) | PutCount(k: nat) | PutFree(k: nat) | PutClear(k: nat) | PutDrop(k: nat)

  predicate Enabled(s: State, l: Label) {
    match l
    case Lookup(k, key) => CanGet(s, k, key)
    case Mark(key, kind) => CanMark(s, key, kind)
    case AllocGet(k, key) => CanAllocGet(s, k, key)
    case Dup(k, k') => CanDup(s, k, k')
    case Lock(k) => CanLock(s, k)
    case Unlock(k) => CanUnlock(s, k)
    case Update(k, nlink) => CanUpdate(s, k)
    case PutLock(k) => CanPutLock(s, k)
    case PutCount(k) => CanPutCount(s, k)
    case PutFree(k) => CanPutFree(s, k)
    case PutClear(k) => CanPutClear(s, k)
    case PutDrop(k) => CanPutDrop(s, k)
  }

  ghost function Apply(s: State, l: Label): State
    requires Enabled(s, l)
  {
    match l
    case Lookup(k, key) => DoGet(s, k, key)
    case Mark(key, kind) => DoMark(s, key, kind)
    case AllocGet(k, key) => DoAllocGet(s, k, key)
    case Dup(k, k') => DoDup(s, k, k')
    case Lock(k) => DoLock(s, k)
    case Unlock(k) => DoUnlock(s, k)
    case Update(k, nlink) => DoUpdate(s, k, nlink)
    case PutLock(k) => DoPutLock(s, k)
    case PutCount(k) => DoPutCount(s, k)
    case PutFree(k) => DoPutFree(s, k)
    case PutClear(k) => DoPutClear(s, k)
    case PutDrop(k) => DoPutDrop(s, k)
  }

  ghost predicate Init(s: State) {
    && s.refs == map[] && s.marked == {}
    && (forall e :: 0 <= e < |s.entries| ==> s.entries[e].ref == 0 && !s.entries[e].valid && s.entries[e].holder == None)
  }

  ghost predicate IsRun(r: seq<State>, ls: seq<Label>) {
    && |r| == |ls| + 1 && Init(r[0])
    && (forall i :: 0 <= i < |ls| ==> Enabled(r[i], ls[i]) && r[i + 1] == Apply(r[i], ls[i]))
  }

  // ----- what holds in every run -------------------------------------------

  /** The references to entry e. */
  ghost function RefsTo(refs: map<nat, Ref>, e: nat): set<nat> {
    set k | k in refs && refs[k].e == e
  }

  /** Has the sleep-lock of its entry. */
  predicate HasLock(at: At) {
    at == Locked || at == PutLocked || at.PutCounted? || at == PutFreed
  }

  /** Between clearing the type on disk and ip->valid = 0. */
  ghost predicate Freed(s: State, e: nat)
    requires e < |s.entries|
  {
    var h := s.entries[e].holder;
    h.Some? && h.value in s.refs && s.refs[h.value].at == PutFreed
  }

  ghost predicate EntryOk(s: State, e: nat)
    requires e < |s.entries|
  {
    var x := s.entries[e];
    && x.ref == |RefsTo(s.refs, e)|
    && (x.holder.Some? ==> x.holder.value in s.refs && s.refs[x.holder.value].e == e && HasLock(s.refs[x.holder.value].at))
    && (x.ref > 0 ==> x.key in s.disk)
    && (x.ref > 0 && x.valid && !Freed(s, e) ==> x.copy == s.disk[x.key] && x.copy.kind != 0)
  }

  ghost predicate RefOk(s: State, k: nat)
    requires k in s.refs
  {
    && s.refs[k].e < |s.entries| && Of(s, k).ref > 0
    && (HasLock(s.refs[k].at) <==> Of(s, k).holder == Some(k))
    && (s.refs[k].at == Locked ==> Of(s, k).valid)
    && (s.refs[k].at.PutCounted? ==> Of(s, k).valid && Of(s, k).copy.nlink == 0)
  }

  ghost predicate Inv(s: State) {
    && (forall e {:trigger EntryOk(s, e)} :: 0 <= e < |s.entries| ==> EntryOk(s, e))
    && (forall e, f :: 0 <= e < f < |s.entries| && s.entries[e].ref > 0 && s.entries[f].ref > 0 ==>
          s.entries[e].key != s.entries[f].key)
    && (forall k {:trigger RefOk(s, k)} :: k in s.refs ==> RefOk(s, k))
  }

  lemma InitInv(s: State)
    requires Init(s)
    ensures Inv(s)
  {
    forall e | 0 <= e < |s.entries| ensures EntryOk(s, e) {
      assert RefsTo(s.refs, e) == {};
    }
  }

  // ----- one entry and one reference change --------------------------------

  ghost predicate Frame(s: State, s': State, e: nat, k: nat, key: Key) {
    && |s'.entries| == |s.entries| && s'.disk.Keys == s.disk.Keys && e < |s.entries|
    && (forall f :: 0 <= f < |s.entries| && f != e ==> s'.entries[f] == s.entries[f])
    && (forall f :: 0 <= f < |s.entries| && f != e && s.entries[f].ref > 0 ==> s.entries[f].key != key)
    && (forall i :: i in s.disk && i != key ==> s'.disk[i] == s.disk[i])
    && (forall i :: i != key ==> (i in s'.marked <==> i in s.marked))
    && (forall j :: j != k ==> (j in s'.refs <==> j in s.refs) && (j in s.refs ==> s'.refs[j] == s.refs[j]))
    && (k in s.refs ==> s.refs[k].e == e) && (k in s'.refs ==> s'.refs[k].e == e)
    && (s'.entries[e].ref > 0 ==> s'.entries[e].key == key)
    && (forall f :: f != e ==> (f in s'.counted <==> f in s.counted) && (f in s.counted ==> s'.counted[f] == s.counted[f]))
  }

  lemma FrameEntry(s: State, s': State, e: nat, k: nat, key: Key, f: nat)
    requires Frame(s, s', e, k, key) && f < |s.entries| && f != e && EntryOk(s, f)
    ensures EntryOk(s', f)
  {
    assert RefsTo(s'.refs, f) == RefsTo(s.refs, f);
    if s.entries[f].ref > 0 {
      assert s.entries[f].key in s'.disk.Keys;
    }
  }

  lemma FrameRef(s: State, s': State, e: nat, k: nat, key: Key, j: nat)
    requires Frame(s, s', e, k, key) && j in s.refs && j != k && s.refs[j].e != e && RefOk(s, j)
    ensures j in s'.refs && RefOk(s', j)
  {
  }

  /** It remains to look at entry e and its references. */
  lemma FrameKeeps(s: State, s': State, e: nat, k: nat, key: Key)
    requires Inv(s) && Frame(s, s', e, k, key) && EntryOk(s', e)
    requires forall j :: j in s'.refs && s'.refs[j].e == e ==> RefOk(s', j)
    ensures Inv(s')
  {
    forall f | 0 <= f < |s'.entries| ensures EntryOk(s', f) {
      if f != e {
        assert EntryOk(s, f);
        FrameEntry(s, s', e, k, key, f);
      }
    }
    forall j | j in s'.refs ensures RefOk(s', j) {
      if s'.refs[j].e != e {
        assert RefOk(s, j);
        FrameRef(s, s', e, k, key, j);
      }
    }
  }

  lemma RefsAdd(refs: map<nat, Ref>, k: nat, r: Ref)
    requires k !in refs
    ensures |RefsTo(refs[k := r], r.e)| == |RefsTo(refs, r.e)| + 1
  {
    assert RefsTo(refs[k := r], r.e) == RefsTo(refs, r.e) + {k};
  }

  lemma RefsDrop(refs: map<nat, Ref>, k: nat)
    requires k in refs
    ensures |RefsTo(refs - {k}, refs[k].e)| + 1 == |RefsTo(refs, refs[k].e)|
  {
    assert RefsTo(refs, refs[k].e) == RefsTo(refs - {k}, refs[k].e) + {k};
  }

  /** The references to e are k alone, if they are one. */
  lemma OnlyRef(refs: map<nat, Ref>, k: nat, j: nat, e: nat)
    requires k in refs && refs[k].e == e && |RefsTo(refs, e)| == 1 && j in refs && refs[j].e == e
    ensures j == k
  {
    if j != k {
      TwoIsMore(RefsTo(refs, e), k, j);
      assert false;
    }
  }

  lemma TwoIsMore(a: set<nat>, k: nat, j: nat)
    requires k in a && j in a && k != j
    ensures |a| >= 2
  {
    assert a == (a - {k, j}) + {k, j};
  }

  // ----- each step ---------------------------------------------------------

  /** iget, and what it leaves alone. */
  lemma GetFrame(s: State, k: nat, key: Key, s': State)
    requires Inv(s) && CanGet(s, k, key) && s' == DoGet(s, k, key).(marked := s'.marked)
    requires forall i :: i != key ==> (i in s'.marked <==> i in s.marked)
    ensures Frame(s, s', Find(s.entries, key).value, k, key)
  {
    FindIs(s.entries, key);
    var e := Find(s.entries, key).value;
    forall f | 0 <= f < |s.entries| && f != e && s.entries[f].ref > 0 ensures s.entries[f].key != key {
      assert Matches(s.entries[e], key) ==> s.entries[e].key == key;
    }
  }

  lemma GetKeeps(s: State, k: nat, key: Key, s': State)
    requires Inv(s) && CanGet(s, k, key) && s' == DoGet(s, k, key).(marked := s'.marked)
    requires forall i :: i != key ==> (i in s'.marked <==> i in s.marked)
    ensures Inv(s')
  {
    var e := Find(s.entries, key).value;
    FindIs(s.entries, key);
    GetFrame(s, k, key, s');
    assert EntryOk(s, e);
    RefsAdd(s.refs, k, Ref(e, Held));
    forall j | j in s'.refs && s'.refs[j].e == e ensures RefOk(s', j) {
      if j != k {
        assert RefOk(s, j);
        assert j in RefsTo(s.refs, e);
      }
    }
    FrameKeeps(s, s', e, k, key);
  }

  lemma MarkKeeps(s: State, key: Key, kind: nat)
    requires Inv(s) && CanMark(s, key, kind)
    ensures Inv(DoMark(s, key, kind))
  {
    var s' := DoMark(s, key, kind);
    forall e | 0 <= e < |s'.entries| ensures EntryOk(s', e) {
      assert EntryOk(s, e);
    }
    forall j | j in s'.refs ensures RefOk(s', j) {
      assert RefOk(s, j);
    }
  }

  lemma DupKeeps(s: State, k: nat, k': nat)
    requires Inv(s) && CanDup(s, k, k')
    ensures Inv(DoDup(s, k, k')) && Frame(s, DoDup(s, k, k'), s.refs[k].e, k', s.entries[s.refs[k].e].key)
  {
    var e, s' := s.refs[k].e, DoDup(s, k, k');
    var key := s.entries[e].key;
    assert EntryOk(s, e) && RefOk(s, k);
    RefsAdd(s.refs, k', Ref(e, Held));
    forall j | j in s'.refs && s'.refs[j].e == e ensures RefOk(s', j) {
      if j != k' {
        assert RefOk(s, j);
      }
    }
    FrameKeeps(s, s', e, k', key);
  }

  /** A step of reference k on its entry, and on the inode on disk. */
  lemma RefStep(s: State, s': State, k: nat)
    requires Inv(s) && k in s.refs && k in s'.refs && s.refs[k].e < |s.entries|
    requires var e := s.refs[k].e;
      && s'.refs == s.refs[k := s.refs[k].(at := s'.refs[k].at)] && |s'.entries| == |s.entries|
      && s'.entries == s.entries[e := s'.entries[e]]
      && s'.entries[e].key == s.entries[e].key && s'.entries[e].ref == s.entries[e].ref
      && s'.disk.Keys == s.disk.Keys && (forall i :: i in s.disk && i != s.entries[e].key ==> s'.disk[i] == s.disk[i])
      && s'.marked == s.marked
      && (forall f :: f != e ==> (f in s'.counted <==> f in s.counted) && (f in s.counted ==> s'.counted[f] == s.counted[f]))
    ensures RefOk(s, k) && EntryOk(s, s.refs[k].e)
    ensures Frame(s, s', s.refs[k].e, k, s.entries[s.refs[k].e].key)
    ensures RefsTo(s'.refs, s.refs[k].e) == RefsTo(s.refs, s.refs[k].e)
  {
    assert RefOk(s, k) && EntryOk(s, s.refs[k].e);
  }

  lemma LockKeeps(s: State, l: Label)
    requires Inv(s) && Enabled(s, l) && (l.Lock? || l.Unlock? || l.Update? || l.PutLock?)
    ensures Inv(Apply(s, l)) && Frame(s, Apply(s, l), s.refs[l.k].e, l.k, s.entries[s.refs[l.k].e].key)
  {
    var k, s' := l.k, Apply(s, l);
    var e := s.refs[k].e;
    assert RefOk(s, k) && EntryOk(s, e);
    RefStep(s, s', k);
    forall j | j in s'.refs && s'.refs[j].e == e ensures RefOk(s', j) {
      assert RefOk(s, j);
    }
    FrameKeeps(s, s', e, k, s.entries[e].key);
  }

  lemma PutKeeps(s: State, l: Label)
    requires Inv(s) && Enabled(s, l) && (l.PutFree? || l.PutClear?)
    ensures Inv(Apply(s, l)) && Frame(s, Apply(s, l), s.refs[l.k].e, l.k, s.entries[s.refs[l.k].e].key)
  {
    var k, s' := l.k, Apply(s, l);
    var e := s.refs[k].e;
    assert RefOk(s, k) && EntryOk(s, e);
    RefStep(s, s', k);
    forall j | j in s'.refs && s'.refs[j].e == e ensures RefOk(s', j) {
      assert RefOk(s, j);
    }
    FrameKeeps(s, s', e, k, s.entries[e].key);
  }

  lemma CountKeeps(s: State, l: Label)
    requires Inv(s) && Enabled(s, l) && l.PutCount?
    ensures Inv(Apply(s, l)) && Frame(s, Apply(s, l), s.refs[l.k].e, l.k, s.entries[s.refs[l.k].e].key)
  {
    var k, s' := l.k, Apply(s, l);
    var e := s.refs[k].e;
    assert RefOk(s, k) && EntryOk(s, e);
    RefStep(s, s', k);
    forall j | j in s'.refs && s'.refs[j].e == e ensures RefOk(s', j) {
      assert RefOk(s, j);
    }
    FrameKeeps(s, s', e, k, s.entries[e].key);
  }

  lemma DropKeeps(s: State, k: nat)
    requires Inv(s) && CanPutDrop(s, k)
    ensures Inv(DoPutDrop(s, k)) && Frame(s, DoPutDrop(s, k), s.refs[k].e, k, s.entries[s.refs[k].e].key)
  {
    var e, s' := s.refs[k].e, DoPutDrop(s, k);
    assert RefOk(s, k) && EntryOk(s, e);
    RefsDrop(s.refs, k);
    forall j | j in s'.refs && s'.refs[j].e == e ensures RefOk(s', j) {
      assert RefOk(s, j);
      TwoIsMore(RefsTo(s.refs, e), k, j);
    }
    FrameKeeps(s, s', e, k, s.entries[e].key);
  }

  lemma RefKeeps(s: State, l: Label)
    requires Inv(s) && Enabled(s, l)
    requires l.Lock? || l.Unlock? || l.Update? || l.PutLock? || l.PutCount? || l.PutFree? || l.PutClear?
    ensures Inv(Apply(s, l)) && Frame(s, Apply(s, l), s.refs[l.k].e, l.k, s.entries[s.refs[l.k].e].key)
  {
    if l.PutCount? {
      CountKeeps(s, l);
    } else if l.PutFree? || l.PutClear? {
      PutKeeps(s, l);
    } else {
      LockKeeps(s, l);
    }
  }

  lemma StepKeeps(s: State, l: Label)
    requires Inv(s) && Enabled(s, l)
    ensures Inv(Apply(s, l))
  {
    match l
    case Lookup(k, key) => GetKeeps(s, k, key, DoGet(s, k, key));
    case Mark(key, kind) => MarkKeeps(s, key, kind);
    case AllocGet(k, key) => GetKeeps(s, k, key, DoAllocGet(s, k, key));
    case Dup(k, k') => DupKeeps(s, k, k');
    case PutDrop(k) => DropKeeps(s, k);
    case _ => RefKeeps(s, l);
  }

  lemma {:induction false} RunKeeps(r: seq<State>, ls: seq<Label>, i: nat)
    requires IsRun(r, ls) && i < |r|
    ensures Inv(r[i])
  {
    if i == 0 {
      InitInv(r[0]);
    } else {
      RunKeeps(r, ls, i - 1);
      RunStep(r, ls, i - 1);
    }
  }

  lemma RunStep(r: seq<State>, ls: seq<Label>, i: nat)
    requires IsRun(r, ls) && i < |ls| && Inv(r[i])
    ensures Inv(r[i + 1])
  {
    StepKeeps(r[i], ls[i]);
  }

  // ----- lookups that come too late ----------------------------------------

  /** A free inode, or one that ialloc has just made: nobody may be using it. */
  ghost predicate Unused(s: State, key: Key) {
    key in s.marked || (key in s.disk && s.disk[key].kind == 0)
  }

  /** An iput has counted one reference to the inode and is about to free it. */
  ghost predicate Going(s: State, key: Key) {
    exists j :: GoingBy(s, key, j)
  }

  ghost predicate GoingBy(s: State, key: Key, j: nat) {
    IsAt(s, j, PutCounted(1)) && Matches(Of(s, j), key)
  }

  /** iget for an inode that is free, is being handed out, or is about to be freed. */
  ghost predicate Stale(s: State, l: Label) {
    l.Lookup? && (Unused(s, l.key) || Going(s, l.key))
  }

  /** What one would like to know of reference k: its inode is in use, unless k's own iput is
      past freeing it; and an iput that found k the only reference is right. */
  ghost predicate SafeRef(s: State, k: nat)
    requires k in s.refs && s.refs[k].e < |s.entries|
  {
    && (Unused(s, Of(s, k).key) ==> s.refs[k].at == PutFreed || s.refs[k].at == PutUnlocked)
    && (s.refs[k].at == PutCounted(1) ==> Of(s, k).ref == 1)
  }

  ghost predicate Safe(s: State) {
    forall k {:trigger k in s.refs} :: k in s.refs && s.refs[k].e < |s.entries| ==> SafeRef(s, k)
  }

  ghost predicate MarkOk(s: State, key: Key) {
    key in s.disk && s.disk[key].kind != 0 && s.disk[key].nlink == 0
  }

  /** An entry with a good copy is not for an inode that ialloc is handing out. */
  ghost predicate FreshOk(s: State, e: nat)
    requires e < |s.entries|
  {
    s.entries[e].ref > 0 && s.entries[e].valid && !Freed(s, e) ==> s.entries[e].key !in s.marked
  }

  /** What makes it last. */
  ghost predicate Calm(s: State) {
    && Safe(s)
    && (forall key {:trigger MarkOk(s, key)} :: key in s.marked ==> MarkOk(s, key))
    && (forall e {:trigger FreshOk(s, e)} :: 0 <= e < |s.entries| ==> FreshOk(s, e))
  }

  /** As for Inv: it remains to look at entry e, its references and its inode. */
  lemma FrameCalm(s: State, s': State, e: nat, k: nat, key: Key)
    requires Inv(s) && Inv(s') && Calm(s) && Frame(s, s', e, k, key) && FreshOk(s', e)
    requires forall j :: j in s'.refs && s'.refs[j].e == e ==> SafeRef(s', j)
    requires key in s'.marked ==> MarkOk(s', key)
    ensures Calm(s')
  {
    forall j | j in s'.refs && s'.refs[j].e < |s'.entries| ensures SafeRef(s', j) {
      if s'.refs[j].e != e {
        assert j in s.refs && SafeRef(s, j) && RefOk(s, j);
      }
    }
    forall i | i in s'.marked ensures MarkOk(s', i) {
      if i != key { assert MarkOk(s, i); }
    }
    forall f | 0 <= f < |s'.entries| ensures FreshOk(s', f) {
      if f != e { assert FreshOk(s, f) && EntryOk(s, f); }
    }
  }

  lemma GetCalm(s: State, k: nat, key: Key, s': State)
    requires Inv(s) && Calm(s) && CanGet(s, k, key) && s' == DoGet(s, k, key).(marked := s.marked - {key})
    requires s.disk[key].kind != 0 && !Going(s, key)
    ensures Calm(s')
  {
    var e := Find(s.entries, key).value;
    FindIs(s.entries, key);
    GetFrame(s, k, key, s');
    GetKeeps(s, k, key, s');
    assert EntryOk(s, e) && FreshOk(s, e);
    forall j | j in s'.refs && s'.refs[j].e == e ensures SafeRef(s', j) {
      if j != k {
        assert RefOk(s, j) && SafeRef(s, j);
        assert j in RefsTo(s.refs, e);
        assert !GoingBy(s, key, j);
      }
    }
    FrameCalm(s, s', e, k, key);
  }

  lemma MarkCalm(s: State, key: Key, kind: nat)
    requires Inv(s) && Calm(s) && CanMark(s, key, kind)
    ensures Calm(DoMark(s, key, kind))
  {
    var s' := DoMark(s, key, kind);
    forall j | j in s'.refs && s'.refs[j].e < |s'.entries| ensures SafeRef(s', j) {
      assert j in s.refs && SafeRef(s, j);
    }
    forall i | i in s'.marked ensures MarkOk(s', i) {
      if i != key { assert MarkOk(s, i); }
    }
    forall f | 0 <= f < |s'.entries| ensures FreshOk(s', f) {
      assert EntryOk(s, f) && FreshOk(s, f);
    }
  }

  lemma DupCalm(s: State, k: nat, k': nat)
    requires Inv(s) && Calm(s) && CanDup(s, k, k')
    ensures Calm(DoDup(s, k, k'))
  {
    var e, s' := s.refs[k].e, DoDup(s, k, k');
    DupKeeps(s, k, k');
    assert k in s.refs && SafeRef(s, k) && EntryOk(s, e) && FreshOk(s, e);
    forall j | j in s'.refs && s'.refs[j].e == e ensures SafeRef(s', j) {
      if j != k' {
        assert j in s.refs && SafeRef(s, j);
        if s.refs[j].at == PutCounted(1) { OnlyRef(s.refs, j, k, e); }
      }
    }
    var key := s.entries[e].key;
    assert key in s.marked ==> MarkOk(s, key);
    FrameCalm(s, s', e, k', key);
  }

  lemma RefCalm(s: State, l: Label)
    requires Inv(s) && Calm(s) && Enabled(s, l)
    requires l.Lock? || l.Unlock? || l.Update? || l.PutLock? || l.PutCount? || l.PutFree? || l.PutClear?
    ensures Calm(Apply(s, l))
  {
    var k, s' := l.k, Apply(s, l);
    var e := s.refs[k].e;
    var key := s.entries[e].key;
    RefKeeps(s, l);
    assert k in s.refs && SafeRef(s, k) && RefOk(s, k) && EntryOk(s, e) && FreshOk(s, e);
    forall j | j in s'.refs && s'.refs[j].e == e ensures SafeRef(s', j) {
      assert j in s.refs && SafeRef(s, j) && RefOk(s, j);
      if s.refs[k].at == PutCounted(1) { OnlyRef(s.refs, k, j, e); }
    }
    assert key in s.marked ==> MarkOk(s, key);
    FrameCalm(s, s', e, k, key);
  }

  lemma DropCalm(s: State, k: nat)
    requires Inv(s) && Calm(s) && CanPutDrop(s, k)
    ensures Calm(DoPutDrop(s, k))
  {
    var e, s' := s.refs[k].e, DoPutDrop(s, k);
    var key := s.entries[e].key;
    DropKeeps(s, k);
    assert EntryOk(s, e) && FreshOk(s, e);
    forall j | j in s'.refs && s'.refs[j].e == e ensures SafeRef(s', j) {
      assert j in s.refs && SafeRef(s, j) && RefOk(s', j);
      TwoIsMore(RefsTo(s.refs, e), k, j);
    }
    assert key in s.marked ==> MarkOk(s, key);
    FrameCalm(s, s', e, k, key);
  }

  lemma StepCalm(s: State, l: Label)
    requires Inv(s) && Calm(s) && Enabled(s, l) && !Stale(s, l)
    ensures Calm(Apply(s, l))
  {
    match l
    case Lookup(k, key) => assert s.marked - {key} == s.marked; GetCalm(s, k, key, DoGet(s, k, key));
    case Mark(key, kind) => MarkCalm(s, key, kind);
    case AllocGet(k, key) => NotGoing(s, key); assert MarkOk(s, key); GetCalm(s, k, key, DoAllocGet(s, k, key));
    case Dup(k, k') => DupCalm(s, k, k');
    case PutDrop(k) => DropCalm(s, k);
    case _ => RefCalm(s, l);
  }

  /** An inode that is being handed out is not about to be freed. */
  lemma NotGoing(s: State, key: Key)
    requires Inv(s) && Calm(s) && key in s.marked
    ensures !Going(s, key)
  {
    forall j ensures !GoingBy(s, key, j) {
      if j in s.refs && s.refs[j].e < |s.entries| {
        assert SafeRef(s, j);
      }
    }
  }

  /** A stale lookup breaks it at once. */
  lemma StaleBreaks(s: State, l: Label)
    requires Inv(s) && Enabled(s, l) && Stale(s, l)
    ensures !Safe(Apply(s, l))
  {
    var s', k, key := Apply(s, l), l.k, l.key;
    FindIs(s.entries, key);
    assert k in s'.refs && s'.refs[k].e < |s'.entries|;
    if Unused(s, key) {
      assert !SafeRef(s', k);
    } else {
      var j :| GoingBy(s, key, j);
      assert RefOk(s, j) && j in s'.refs && s'.refs[j].e < |s'.entries|;
      assert !SafeRef(s', j);
    }
  }

  lemma {:induction false} RunCalm(r: seq<State>, ls: seq<Label>, i: nat)
    requires IsRun(r, ls) && i < |r| && forall j :: 0 <= j < i ==> !Stale(r[j], ls[j])
    ensures Calm(r[i])
  {
    if i > 0 {
      RunCalm(r, ls, i - 1);
      RunKeeps(r, ls, i - 1);
      CalmStep(r, ls, i - 1);
    }
  }

  lemma CalmStep(r: seq<State>, ls: seq<Label>, i: nat)
    requires IsRun(r, ls) && i < |ls| && Inv(r[i]) && Calm(r[i]) && !Stale(r[i], ls[i])
    ensures Calm(r[i + 1])
  {
    StepCalm(r[i], ls[i]);
  }

  /** References are safe throughout a run if and only if it has no stale lookup. */
  lemma SafeIff(r: seq<State>, ls: seq<Label>)
    requires IsRun(r, ls)
    ensures (forall i :: 0 <= i < |r| ==> Safe(r[i])) <==> (forall j :: 0 <= j < |ls| ==> !Stale(r[j], ls[j]))
  {
    if forall j :: 0 <= j < |ls| ==> !Stale(r[j], ls[j]) {
      forall i | 0 <= i < |r| ensures Safe(r[i]) {
        RunCalm(r, ls, i);
      }
    } else {
      var j :| 0 <= j < |ls| && Stale(r[j], ls[j]);
      RunKeeps(r, ls, j);
      StaleBreaks(r[j], ls[j]);
      assert !Safe(r[j + 1]);
    }
  }

  // ----- what a stale lookup does ------------------------------------------

  /** ilock would panic; or a process works on an inode that ialloc is handing out; or iput
      is about to free an inode that others have. */
  ghost predicate Harm(s: State) {
    exists k :: HarmAt(s, k)
  }

  ghost predicate HarmAt(s: State, k: nat) {
    || LockPanics(s, k)
    || (IsAt(s, k, Locked) && Of(s, k).key in s.marked)
    || (IsAt(s, k, PutCounted(1)) && Of(s, k).ref > 1)
  }

  /** One or two steps on, other than lookups. */
  ghost predicate Then(s: State, l: Label, t: State) {
    Enabled(s, l) && !l.Lookup? && t == Apply(s, l)
  }

  ghost predicate Soon(s: State, t: State) {
    || t == s
    || (exists l :: Then(s, l, t))
    || (exists l, u, m :: Then(s, l, u) && Then(u, m, t))
  }

  lemma CalmHarmless(s: State)
    requires Inv(s) && Calm(s)
    ensures !Harm(s)
  {
    forall k ensures !HarmAt(s, k) {
      if k in s.refs && s.refs[k].e < |s.entries| {
        assert SafeRef(s, k) && RefOk(s, k) && EntryOk(s, s.refs[k].e) && FreshOk(s, s.refs[k].e);
      }
    }
  }

  lemma CalmSoon(s: State, t: State)
    requires Inv(s) && Calm(s) && Soon(s, t)
    ensures !Harm(t)
  {
    if t == s {
      CalmHarmless(s);
    } else if l :| Then(s, l, t) {
      StepKeeps(s, l);
      StepCalm(s, l);
      CalmHarmless(t);
    } else {
      var l, u, m :| Then(s, l, u) && Then(u, m, t);
      StepKeeps(s, l);
      StepCalm(s, l);
      StepKeeps(u, m);
      StepCalm(u, m);
      CalmHarmless(t);
    }
  }

  /** With the sleep-lock free, a stale reference is locked next: it panics, or it has an
      inode that is being handed out. */
  lemma StaleLocks(s: State, k: nat) returns (t: State)
    requires Inv(s) && IsAt(s, k, Held) && Of(s, k).holder == None && !Of(s, k).valid
    requires Of(s, k).key in s.disk && Unused(s, Of(s, k).key) && (Of(s, k).key in s.marked ==> s.disk[Of(s, k).key].kind != 0)
    ensures Harm(t) && (t == s || Then(s, Lock(k), t))
  {
    if LockPanics(s, k) {
      t := s;
      assert HarmAt(t, k);
    } else {
      t := Apply(s, Lock(k));
      assert Then(s, Lock(k), t) && HarmAt(t, k);
    }
  }

  /** The entry of an unused inode is being put by whoever holds it. */
  lemma UnusedEntry(s: State, e: nat)
    requires Inv(s) && Calm(s) && e < |s.entries| && s.entries[e].ref > 0 && Unused(s, s.entries[e].key)
    ensures s.entries[e].holder.Some? ==> Freed(s, e)
    ensures s.entries[e].holder == None ==> !s.entries[e].valid
  {
    assert EntryOk(s, e) && FreshOk(s, e);
    var h := s.entries[e].holder;
    if h.Some? {
      assert h.value in s.refs && SafeRef(s, h.value) && RefOk(s, h.value);
    }
  }

  lemma EmptyEntry(s: State, e: nat)
    requires Inv(s) && e < |s.entries| && s.entries[e].ref == 0
    ensures s.entries[e].holder == None
  {
    assert EntryOk(s, e) && RefsTo(s.refs, e) == {};
    forall h ensures s.entries[e].holder != Some(h) {
      assert h !in RefsTo(s.refs, e);
    }
  }

  lemma StaleBites(s: State, l: Label) returns (t: State)
    requires Inv(s) && Calm(s) && Enabled(s, l) && Stale(s, l)
    ensures Soon(Apply(s, l), t) && Harm(t)
  {
    var s1, k, key := Apply(s, l), l.k, l.key;
    var e := Find(s.entries, key).value;
    FindIs(s.entries, key);
    StepKeeps(s, l);
    if Unused(s, key) {
      assert key in s.marked ==> MarkOk(s, key);
      if Matches(s.entries[e], key) {
        UnusedEntry(s, e);
      } else {
        EmptyEntry(s, e);
      }
      if s1.entries[e].holder == None {
        t := StaleLocks(s1, k);
      } else {
        var h := s1.entries[e].holder.value;
        assert EntryOk(s, e);
        var s2 := Apply(s1, PutClear(h));
        StepKeeps(s1, PutClear(h));
        assert Then(s1, PutClear(h), s2);
        t := StaleLocks(s2, k);
      }
    } else {
      var j :| GoingBy(s, key, j);
      assert RefOk(s, j);
      t := s1;
      assert HarmAt(t, j);
    }
  }

  /** No harm is near throughout a run, if and only if it has no stale lookup. */
  lemma HarmIff(r: seq<State>, ls: seq<Label>)
    requires IsRun(r, ls)
    ensures (forall i, t :: 0 <= i < |r| && Soon(r[i], t) ==> !Harm(t)) <==> (forall j :: 0 <= j < |ls| ==> !Stale(r[j], ls[j]))
  {
    if forall j :: 0 <= j < |ls| ==> !Stale(r[j], ls[j]) {
      forall i, t | 0 <= i < |r| && Soon(r[i], t) ensures !Harm(t) {
        RunKeeps(r, ls, i);
        RunCalm(r, ls, i);
        CalmSoon(r[i], t);
      }
    } else {
      var n :| 0 <= n < |ls| && Stale(r[n], ls[n]);
      var j := FirstStale(r, ls, n);
      RunKeeps(r, ls, j);
      RunCalm(r, ls, j);
      var t := StaleBites(r[j], ls[j]);
      assert Soon(r[j + 1], t) && Harm(t);
    }
  }

  lemma {:induction false} FirstStale(r: seq<State>, ls: seq<Label>, n: nat) returns (j: nat)
    requires IsRun(r, ls) && n < |ls| && Stale(r[n], ls[n])
    ensures j < |ls| && Stale(r[j], ls[j]) && forall i :: 0 <= i < j ==> !Stale(r[i], ls[i])
  {
    if i :| 0 <= i < n && Stale(r[i], ls[i]) {
      j := FirstStale(r, ls, i);
    } else {
      j := n;
    }
  }

  // ----- what it means -----------------------------------------------------

  /** In every run an inode of a device has at most one entry in use, and ip->ref counts the
      references to it. */
  lemma OneEntryEach(r: seq<State>, ls: seq<Label>, i: nat, e: nat, f: nat)
    requires IsRun(r, ls) && i < |r| && e < |r[i].entries| && f < |r[i].entries|
    ensures r[i].entries[e].ref == |RefsTo(r[i].refs, e)|
    ensures r[i].entries[e].ref > 0 && r[i].entries[f].ref > 0 && r[i].entries[e].key == r[i].entries[f].key ==> e == f
  {
    RunKeeps(r, ls, i);
    assert EntryOk(r[i], e);
  }

  /** In every run the sleep-lock of an entry has one holder, and through it one sees the
      inode on disk, which is an allocated one; without stale lookups, not one that ialloc
      is handing out, and ilock never panics. */
  lemma LockedIsCurrent(r: seq<State>, ls: seq<Label>, i: nat, k: nat)
    requires IsRun(r, ls) && i < |r|
    ensures IsAt(r[i], k, Locked) ==>
              var x := Of(r[i], k);
              x.holder == Some(k) && x.valid && x.key in r[i].disk && x.copy == r[i].disk[x.key] && x.copy.kind != 0
    ensures (forall j :: 0 <= j < i ==> !Stale(r[j], ls[j])) ==>
              !LockPanics(r[i], k) && (IsAt(r[i], k, Locked) ==> Of(r[i], k).key !in r[i].marked)
  {
    RunKeeps(r, ls, i);
    if IsAt(r[i], k, Locked) {
      assert RefOk(r[i], k) && EntryOk(r[i], r[i].refs[k].e);
    }
    if forall j :: 0 <= j < i ==> !Stale(r[j], ls[j]) {
      RunCalm(r, ls, i);
      CalmHarmless(r[i]);
      assert !HarmAt(r[i], k);
    }
  }

  /** iput frees an inode that has no link and is still allocated; without stale lookups it
      does so through the last reference, and never one that ialloc is handing out. */
  lemma FreedBySoleHolder(r: seq<State>, ls: seq<Label>, i: nat, k: nat)
    requires IsRun(r, ls) && i < |ls| && ls[i] == PutFree(k) && r[i].refs[k].at == PutCounted(1)
    ensures
      var key := Of(r[i], k).key;
      && key in r[i].disk && r[i].disk[key].nlink == 0 && r[i].disk[key].kind != 0
      && key in r[i + 1].disk && r[i + 1].disk == r[i].disk[key := r[i + 1].disk[key]] && r[i + 1].disk[key].kind == 0
    ensures (forall j :: 0 <= j < i ==> !Stale(r[j], ls[j])) ==>
              RefsTo(r[i].refs, r[i].refs[k].e) == {k} && Of(r[i], k).key !in r[i].marked
  {
    RunKeeps(r, ls, i);
    var s := r[i];
    assert RefOk(s, k) && EntryOk(s, s.refs[k].e);
    if forall j :: 0 <= j < i ==> !Stale(r[j], ls[j]) {
      RunCalm(r, ls, i);
      assert SafeRef(s, k);
      forall j | j in RefsTo(s.refs, s.refs[k].e) ensures j == k {
        OnlyRef(s.refs, k, j, s.refs[k].e);
      }
    }
  }

  /** In every run an inode on disk becomes free in no other way. */
  lemma OnlyIputFrees(r: seq<State>, ls: seq<Label>, i: nat, key: Key)
    requires IsRun(r, ls) && i < |ls| && key in r[i].disk && r[i].disk[key].kind != 0
    ensures key in r[i + 1].disk
    ensures r[i + 1].disk[key].kind == 0 ==>
              ls[i].PutFree? && r[i].refs[ls[i].k].at == PutCounted(1) && Of(r[i], ls[i].k).key == key
  {
    RunKeeps(r, ls, i);
    var s, l := r[i], ls[i];
    if l.Update? {
      assert RefOk(s, l.k) && EntryOk(s, s.refs[l.k].e);
    }
  }

  /** ialloc reuses the number of an inode whose iput is not finished: it shares the entry;
      without stale lookups it finds it invalid or locked by that iput, so that the first
      ilock reads the new inode from disk. */
  lemma ReuseSharesEntry(r: seq<State>, ls: seq<Label>, i: nat, k: nat, e: nat)
    requires IsRun(r, ls) && i < |ls| && ls[i].AllocGet? && ls[i].k == k
    requires e < |r[i].entries| && Matches(r[i].entries[e], ls[i].key)
    ensures k in r[i + 1].refs && r[i + 1].refs[k] == Ref(e, Held) && |r[i + 1].entries| == |r[i].entries|
    ensures r[i + 1].entries[e].ref == r[i].entries[e].ref + 1
    ensures (forall j :: 0 <= j < i ==> !Stale(r[j], ls[j])) ==>
              && (!r[i + 1].entries[e].valid || Freed(r[i + 1], e))
              && (forall j :: j in r[i].refs && r[i].refs[j].e == e ==>
                    r[i].refs[j].at == PutFreed || r[i].refs[j].at == PutUnlocked)
  {
    RunKeeps(r, ls, i);
    var s, key := r[i], ls[i].key;
    FindIs(s.entries, key);
    assert Find(s.entries, key) == Some(e);
    assert EntryOk(s, e);
    if forall j :: 0 <= j < i ==> !Stale(r[j], ls[j]) {
      RunCalm(r, ls, i);
      UnusedEntry(s, e);
      forall j | j in s.refs && s.refs[j].e == e ensures s.refs[j].at == PutFreed || s.refs[j].at == PutUnlocked {
        assert SafeRef(s, j);
      }
    }
  }

  // ----- when the last iput frees ------------------------------------------

  /** All references to e have been counted, and none can look at the inode again. */
  ghost predicate Quiet(s: State, e: nat) {
    forall k :: k in s.refs && s.refs[k].e == e ==>
      s.refs[k].at == PutUnlocked || s.refs[k].at.PutCounted? || s.refs[k].at == PutFreed
  }

  /** An allocated inode with no link, which ialloc is not handing out. */
  ghost predicate Unlinked(s: State, key: Key) {
    key in s.disk && s.disk[key].kind != 0 && s.disk[key].nlink == 0 && key !in s.marked
  }

  /** The count that lets iput free. */
  predicate Frees(c: Count) {
    c.valid && c.inode.nlink == 0 && c.others == 0
  }

  /** The count after which an unlinked inode is left: the entry was never read in, or there
      was another reference, whose iput had counted this one. */
  predicate Leaves(c: Count) {
    c.inode.kind != 0 && c.inode.nlink == 0 && !c.marked && (!c.valid || c.others > 0)
  }

  /** What the last count of e says about the inode now. */
  ghost predicate CountOk(s: State, e: nat)
    requires e < |s.entries| && e in s.counted && s.entries[e].key in s.disk
  {
    var c, key := s.counted[e], s.entries[e].key;
    && (c.valid ==> c.inode.kind != 0) && c.dropping
    && if s.entries[e].holder == None || Freed(s, e) then
         if Frees(c) then Unused(s, key)
         else (s.disk[key] == c.inode && (key in s.marked <==> c.marked)) || (c.inode.kind == 0 && key in s.marked)
       else
         && c.valid && c.inode.nlink == 0 && s.disk[key] == c.inode && (key in s.marked <==> c.marked)
         && s.entries[e].holder.value in s.refs && s.refs[s.entries[e].holder.value].at == PutCounted(c.others + 1)
  }

  ghost predicate PastOk(s: State, e: nat)
    requires e < |s.entries|
  {
    Quiet(s, e) && s.entries[e].ref > 0 ==> e in s.counted && s.entries[e].key in s.disk && CountOk(s, e)
  }

  ghost predicate Past(s: State) {
    forall e {:trigger PastOk(s, e)} :: 0 <= e < |s.entries| ==> PastOk(s, e)
  }

  lemma FramePast(s: State, s': State, e: nat, k: nat, key: Key)
    requires Inv(s) && Inv(s') && Past(s) && Frame(s, s', e, k, key) && PastOk(s', e)
    ensures Past(s')
  {
    forall f | 0 <= f < |s'.entries| ensures PastOk(s', f) {
      if f != e {
        assert PastOk(s, f) && EntryOk(s, f) && EntryOk(s', f);
        if Quiet(s', f) && s'.entries[f].ref > 0 {
          assert Quiet(s, f);
        }
      }
    }
  }

  /** A reference that still looks at the inode. */
  lemma NotQuiet(s: State, e: nat, k: nat)
    requires e < |s.entries| && k in s.refs && s.refs[k].e == e
    requires s.refs[k].at == Held || s.refs[k].at == Locked || s.refs[k].at == PutLocked
    ensures !Quiet(s, e) && PastOk(s, e)
  {
  }

  lemma GetPast(s: State, k: nat, key: Key, s': State)
    requires Inv(s) && Past(s) && CanGet(s, k, key) && s' == DoGet(s, k, key).(marked := s'.marked)
    requires forall i :: i != key ==> (i in s'.marked <==> i in s.marked)
    ensures Past(s')
  {
    var e := Find(s.entries, key).value;
    GetFrame(s, k, key, s');
    GetKeeps(s, k, key, s');
    NotQuiet(s', e, k);
    FramePast(s, s', e, k, key);
  }

  lemma MarkPast(s: State, key: Key, kind: nat)
    requires Inv(s) && Past(s) && CanMark(s, key, kind)
    ensures Past(DoMark(s, key, kind))
  {
    var s' := DoMark(s, key, kind);
    forall f | 0 <= f < |s'.entries| ensures PastOk(s', f) {
      assert PastOk(s, f) && EntryOk(s, f);
      if Quiet(s', f) && s'.entries[f].ref > 0 {
        assert Quiet(s, f);
        assert Freed(s', f) == Freed(s, f);
        var h := s.entries[f].holder;
        if h.Some? { assert RefOk(s, h.value); }
      }
    }
  }

  lemma CountPast(s: State, k: nat)
    requires Inv(s) && Past(s) && CanPutCount(s, k)
    ensures Past(DoPutCount(s, k))
  {
    var e, s' := s.refs[k].e, DoPutCount(s, k);
    CountKeeps(s, PutCount(k));
    assert RefOk(s, k) && EntryOk(s, e) && EntryOk(s', e) && RefOk(s', k);
    if Quiet(s', e) {
      forall j | j in s.refs && j != k && s.refs[j].e == e ensures s.refs[j].at == PutUnlocked {
        assert j in s'.refs && RefOk(s, j);
      }
    }
    FramePast(s, s', e, k, s.entries[e].key);
  }

  lemma FreePast(s: State, l: Label)
    requires Inv(s) && Past(s) && Enabled(s, l) && (l.PutFree? || l.PutClear?)
    ensures Past(Apply(s, l))
  {
    var k, s' := l.k, Apply(s, l);
    var e := s.refs[k].e;
    PutKeeps(s, l);
    assert RefOk(s, k) && EntryOk(s, e) && PastOk(s, e) && EntryOk(s', e) && RefOk(s', k);
    if Quiet(s', e) {
      forall j | j in s.refs && s.refs[j].e == e
        ensures s.refs[j].at == PutUnlocked || s.refs[j].at.PutCounted? || s.refs[j].at == PutFreed
      {
        assert j in s'.refs;
      }
      assert Quiet(s, e);
    }
    FramePast(s, s', e, k, s.entries[e].key);
  }

  lemma DropPast(s: State, k: nat)
    requires Inv(s) && Past(s) && CanPutDrop(s, k)
    ensures Past(DoPutDrop(s, k))
  {
    var e, s' := s.refs[k].e, DoPutDrop(s, k);
    DropKeeps(s, k);
    assert RefOk(s, k) && EntryOk(s, e) && PastOk(s, e) && EntryOk(s', e);
    if Quiet(s', e) && s'.entries[e].ref > 0 {
      forall j | j in s.refs && s.refs[j].e == e
        ensures s.refs[j].at == PutUnlocked || s.refs[j].at.PutCounted? || s.refs[j].at == PutFreed
      {
        assert j == k || j in s'.refs;
      }
      assert Quiet(s, e);
    }
    FramePast(s, s', e, k, s.entries[e].key);
  }

  lemma StepPast(s: State, l: Label)
    requires Inv(s) && Past(s) && Enabled(s, l)
    ensures Past(Apply(s, l))
  {
    match l
    case Lookup(k, key) => GetPast(s, k, key, DoGet(s, k, key));
    case Mark(key, kind) => MarkPast(s, key, kind);
    case AllocGet(k, key) => GetPast(s, k, key, DoAllocGet(s, k, key));
    case Dup(k, k') =>
      DupKeeps(s, k, k');
      NotQuiet(Apply(s, l), s.refs[k].e, k');
      FramePast(s, Apply(s, l), s.refs[k].e, k', s.entries[s.refs[k].e].key);
    case PutCount(k) => CountPast(s, k);
    case PutFree(_) => FreePast(s, l);
    case PutClear(_) => FreePast(s, l);
    case PutDrop(k) => DropPast(s, k);
    case _ =>
      LockKeeps(s, l);
      NotQuiet(Apply(s, l), s.refs[l.k].e, l.k);
      FramePast(s, Apply(s, l), s.refs[l.k].e, l.k, s.entries[s.refs[l.k].e].key);
  }

  lemma {:induction false} RunPast(r: seq<State>, ls: seq<Label>, i: nat)
    requires IsRun(r, ls) && i < |r|
    ensures Past(r[i])
  {
    if i > 0 {
      RunPast(r, ls, i - 1);
      RunKeeps(r, ls, i - 1);
      PastStep(r, ls, i - 1);
    }
  }

  lemma PastStep(r: seq<State>, ls: seq<Label>, i: nat)
    requires IsRun(r, ls) && i < |ls| && Inv(r[i]) && Past(r[i])
    ensures Past(r[i + 1])
  {
    StepPast(r[i], ls[i]);
  }

  /** Step i of the run gives up the last reference to entry e. */
  ghost predicate LastDrop(r: seq<State>, ls: seq<Label>, i: nat, e: nat) {
    && i < |ls| && i < |r| && ls[i].PutDrop? && CanPutDrop(r[i], ls[i].k)
    && r[i].refs[ls[i].k].e == e && r[i].entries[e].ref == 1
  }

  /** In every run: when the last reference goes, the inode is left allocated with no link if
      and only if the last iput to look at it found it so, and found the entry invalid or
      another reference.  Such another reference was itself past its look at ip->ref. */
  lemma LeftIff(r: seq<State>, ls: seq<Label>, i: nat, e: nat)
    requires IsRun(r, ls) && LastDrop(r, ls, i, e)
    ensures e in r[i].counted && r[i].counted[e].dropping
    ensures Unlinked(r[i + 1], r[i].entries[e].key) <==> Leaves(r[i].counted[e])
    ensures Frees(r[i].counted[e]) ==> Unused(r[i + 1], r[i].entries[e].key)
  {
    var s, k := r[i], ls[i].k;
    RunKeeps(r, ls, i);
    RunPast(r, ls, i);
    assert RefOk(s, k) && EntryOk(s, e) && PastOk(s, e);
    forall j | j in s.refs && s.refs[j].e == e ensures j == k {
      OnlyRef(s.refs, k, j, e);
    }
    assert Quiet(s, e);
  }

  // ----- iputs one after the other -----------------------------------------

  predicate InPut(at: At) {
    at != Held && at != Locked
  }

  /** An iput begins while another of the same entry is not over. */
  ghost predicate Overlaps(s: State, l: Label) {
    l.PutLock? && l.k in s.refs && exists j :: j in s.refs && j != l.k && s.refs[j].e == s.refs[l.k].e && InPut(s.refs[j].at)
  }

  /** At most one iput of an entry is under way, and the last one to look was alone. */
  ghost predicate OneAtATime(s: State) {
    && (forall j, k :: j in s.refs && k in s.refs && j != k && s.refs[j].e == s.refs[k].e && InPut(s.refs[j].at) ==>
          !InPut(s.refs[k].at))
    && AllAlone(s)
  }

  ghost predicate AllAlone(s: State) {
    forall e {:trigger AloneOk(s, e)} :: 0 <= e < |s.entries| ==> AloneOk(s, e)
  }

  ghost predicate AloneOk(s: State, e: nat)
    requires e < |s.entries|
  {
    Quiet(s, e) && s.entries[e].ref > 0 && e in s.counted ==> s.counted[e].others == 0
  }

  /** An iput goes on, begins without overlap, or ends. */
  lemma StepPut(s: State, l: Label, k: nat)
    requires Enabled(s, l) && !l.Mark? && k in Apply(s, l).refs && InPut(Apply(s, l).refs[k].at)
    requires l.Lookup? || l.AllocGet? || l.PutDrop? ==> k != l.k
    requires l.Dup? ==> k != l.k'
    ensures k in s.refs && (InPut(s.refs[k].at) || l == PutLock(k)) && Apply(s, l).refs[k].e == s.refs[k].e
  {
  }

  lemma StepOneAtATime(s: State, l: Label)
    requires Inv(s) && OneAtATime(s) && Enabled(s, l) && !Overlaps(s, l)
    ensures OneAtATime(Apply(s, l))
  {
    var s' := Apply(s, l);
    StepKeeps(s, l);
    StepPairs(s, l);
    StepAlone(s, l);
  }

  lemma StepPairs(s: State, l: Label)
    requires Inv(s) && OneAtATime(s) && Enabled(s, l) && !Overlaps(s, l)
    ensures
      var s' := Apply(s, l);
      forall j, k :: j in s'.refs && k in s'.refs && j != k && s'.refs[j].e == s'.refs[k].e && InPut(s'.refs[j].at) ==>
        !InPut(s'.refs[k].at)
  {
    var s' := Apply(s, l);
    forall j, k | j in s'.refs && k in s'.refs && j != k && s'.refs[j].e == s'.refs[k].e && InPut(s'.refs[j].at)
      ensures !InPut(s'.refs[k].at)
    {
      if InPut(s'.refs[k].at) && !l.Mark? {
        StepPut(s, l, j);
        StepPut(s, l, k);
        assert false;
      }
    }
  }

  lemma FrameAlone(s: State, s': State, e: nat, k: nat, key: Key)
    requires OneAtATime(s) && Frame(s, s', e, k, key) && AloneOk(s', e)
    ensures AllAlone(s')
  {
    forall f | 0 <= f < |s'.entries| ensures AloneOk(s', f) {
      if f != e {
        assert AloneOk(s, f);
        if Quiet(s', f) { assert Quiet(s, f); }
      }
    }
  }

  /** The iput that looks last was alone. */
  lemma CountAlone(s: State, k: nat)
    requires Inv(s) && OneAtATime(s) && CanPutCount(s, k)
    ensures AloneOk(DoPutCount(s, k), s.refs[k].e)
  {
    var e, s' := s.refs[k].e, DoPutCount(s, k);
    assert RefOk(s, k) && EntryOk(s, e);
    if Quiet(s', e) {
      forall j | j in RefsTo(s.refs, e) ensures j == k {
        assert j in s'.refs;
      }
      assert RefsTo(s.refs, e) == {k};
    }
  }

  lemma RestAlone(s: State, l: Label)
    requires Inv(s) && OneAtATime(s) && Enabled(s, l) && (l.PutFree? || l.PutClear? || l.PutDrop?)
    ensures AloneOk(Apply(s, l), s.refs[l.k].e)
  {
    var e, s' := s.refs[l.k].e, Apply(s, l);
    assert AloneOk(s, e);
    if Quiet(s', e) {
      forall j | j in s.refs && s.refs[j].e == e
        ensures s.refs[j].at == PutUnlocked || s.refs[j].at.PutCounted? || s.refs[j].at == PutFreed
      {
        assert j == l.k || j in s'.refs;
      }
      assert Quiet(s, e);
    }
  }

  lemma GetAlone(s: State, k: nat, key: Key, s': State)
    requires Inv(s) && OneAtATime(s) && CanGet(s, k, key) && s' == DoGet(s, k, key).(marked := s'.marked)
    requires forall i :: i != key ==> (i in s'.marked <==> i in s.marked)
    ensures AllAlone(s')
  {
    var e := Find(s.entries, key).value;
    GetFrame(s, k, key, s');
    NotQuiet(s', e, k);
    FrameAlone(s, s', e, k, key);
  }

  lemma MarkAlone(s: State, key: Key, kind: nat)
    requires OneAtATime(s) && CanMark(s, key, kind)
    ensures AllAlone(DoMark(s, key, kind))
  {
    var s' := DoMark(s, key, kind);
    forall f | 0 <= f < |s'.entries| ensures AloneOk(s', f) {
      assert AloneOk(s, f);
    }
  }

  lemma RefAlone(s: State, l: Label)
    requires Inv(s) && OneAtATime(s) && Enabled(s, l)
    requires l.Lock? || l.Unlock? || l.Update? || l.PutLock? || l.PutCount? || l.PutFree? || l.PutClear?
    ensures AloneOk(Apply(s, l), s.refs[l.k].e)
  {
    if l.PutCount? {
      CountAlone(s, l.k);
    } else if l.PutFree? || l.PutClear? {
      RestAlone(s, l);
    } else {
      NotQuiet(Apply(s, l), s.refs[l.k].e, l.k);
    }
  }

  lemma StepAlone(s: State, l: Label)
    requires Inv(s) && OneAtATime(s) && Enabled(s, l)
    ensures AllAlone(Apply(s, l))
  {
    match l
    case Lookup(k, key) => GetAlone(s, k, key, DoGet(s, k, key));
    case Mark(key, kind) => MarkAlone(s, key, kind);
    case AllocGet(k, key) => GetAlone(s, k, key, DoAllocGet(s, k, key));
    case Dup(k, k') =>
      DupKeeps(s, k, k');
      NotQuiet(Apply(s, l), s.refs[k].e, k');
      FrameAlone(s, Apply(s, l), s.refs[k].e, k', s.entries[s.refs[k].e].key);
    case PutDrop(k) =>
      DropKeeps(s, k);
      RestAlone(s, l);
      FrameAlone(s, Apply(s, l), s.refs[k].e, k, s.entries[s.refs[k].e].key);
    case _ =>
      RefKeeps(s, l);
      RefAlone(s, l);
      FrameAlone(s, Apply(s, l), s.refs[l.k].e, l.k, s.entries[s.refs[l.k].e].key);
  }

  lemma {:induction false} RunOneAtATime(r: seq<State>, ls: seq<Label>, i: nat)
    requires IsRun(r, ls) && i < |r| && forall j :: 0 <= j < |ls| ==> !Overlaps(r[j], ls[j])
    ensures OneAtATime(r[i])
  {
    if i > 0 {
      RunOneAtATime(r, ls, i - 1);
      RunKeeps(r, ls, i - 1);
      OneAtATimeStep(r, ls, i - 1);
    }
  }

  lemma OneAtATimeStep(r: seq<State>, ls: seq<Label>, i: nat)
    requires IsRun(r, ls) && i < |ls| && Inv(r[i]) && OneAtATime(r[i]) && !Overlaps(r[i], ls[i])
    ensures OneAtATime(r[i + 1])
  {
    StepOneAtATime(r[i], ls[i]);
  }

  /** In a run in which iputs of an entry do not overlap, the last one to look frees an inode
      that has no link: it is free, or being handed out again, when the last reference has
      gone.  The one case in which it is left is that it was never read in. */
  lemma FreedInTurn(r: seq<State>, ls: seq<Label>, i: nat, e: nat)
    requires IsRun(r, ls) && LastDrop(r, ls, i, e) && forall j :: 0 <= j < |ls| ==> !Overlaps(r[j], ls[j])
    ensures
      var key := r[i].entries[e].key;
      && e in r[i].counted
      && var c := r[i].counted[e];
      && (c.valid && c.inode.nlink == 0 ==> Unused(r[i + 1], key))
      && (Unlinked(r[i + 1], key) <==> !c.valid && c.inode.kind != 0 && c.inode.nlink == 0 && !c.marked)
  {
    var s, k := r[i], ls[i].k;
    LeftIff(r, ls, i, e);
    RunKeeps(r, ls, i);
    RunOneAtATime(r, ls, i);
    assert EntryOk(s, e) && AloneOk(s, e);
    forall j | j in s.refs && s.refs[j].e == e ensures j == k {
      OnlyRef(s.refs, k, j, e);
    }
    assert Quiet(s, e);
  }

  // ----- three runs --------------------------------------------------------

  ghost predicate Reachable(s: State) {
    exists r, ls :: IsRun(r, ls) && r[|r| - 1] == s
  }

  lemma Extend(s: State, l: Label)
    requires Reachable(s) && Enabled(s, l)
    ensures Reachable(Apply(s, l))
  {
    var r, ls :| IsRun(r, ls) && r[|r| - 1] == s;
    var r', ls' := r + [Apply(s, l)], ls + [l];
    forall i | 0 <= i < |ls'| ensures Enabled(r'[i], ls'[i]) && r'[i + 1] == Apply(r'[i], ls'[i]) {
    }
    assert IsRun(r', ls');
  }

  const FILE := Key(1, 1)

  /** A table of one entry, on a disk of one inode. */
  function Small(kind: nat, links: nat, ref: nat, valid: bool, holder: Option<nat>, refs: map<nat, Ref>): State {
    State([Entry(FILE, ref, valid, Dinode(kind, links), holder)], map[FILE := Dinode(kind, links)], refs, {}, map[])
  }

  function One(a: At): map<nat, Ref> {
    map[0 := Ref(0, a)]
  }

  function Two(a: At, b: At): map<nat, Ref> {
    map[0 := Ref(0, a), 1 := Ref(0, b)]
  }

  /** s, up to the history, can be reached. */
  ghost predicate Reached(s: State) {
    exists c: map<nat, Count> :: Reachable(s.(counted := c))
  }

  /** What steps do does not depend on the history. */
  lemma HistoryFree(s: State, c: map<nat, Count>, l: Label)
    requires Enabled(s, l)
    ensures Enabled(s.(counted := c), l) && Apply(s.(counted := c), l).(counted := map[]) == Apply(s, l).(counted := map[])
  {
  }

  lemma Go(s: State, l: Label, t: State)
    requires Reached(s) && Enabled(s, l) && Apply(s, l).(counted := map[]) == t
    ensures Reached(t)
  {
    var c: map<nat, Count> :| Reachable(s.(counted := c));
    HistoryFree(s, c, l);
    var t' := Apply(s.(counted := c), l);
    Extend(s.(counted := c), l);
    assert t.(counted := t'.counted) == t';
  }

  /** A file is opened ... */
  lemma Opened()
    ensures Reached(Small(1, 1, 1, false, None, One(Held)))
  {
    var s := Small(1, 1, 0, false, None, map[]);
    assert IsRun([s], []) && [s][|[s]| - 1] == s.(counted := map[]);
    Go(s, Lookup(0, FILE), Small(1, 1, 1, false, None, One(Held)));
  }

  /** ... and unlinked. */
  lemma Unlinking()
    ensures Reached(Small(1, 0, 1, true, Some(0), One(Locked)))
  {
    Opened();
    Go(Small(1, 1, 1, false, None, One(Held)), Lock(0), Small(1, 1, 1, true, Some(0), One(Locked)));
    Go(Small(1, 1, 1, true, Some(0), One(Locked)), Update(0, 0), Small(1, 0, 1, true, Some(0), One(Locked)));
  }

  lemma OpenedUnlinked()
    ensures Reached(Small(1, 0, 1, true, None, One(Held)))
  {
    Unlinking();
    Go(Small(1, 0, 1, true, Some(0), One(Locked)), Unlock(0), Small(1, 0, 1, true, None, One(Held)));
  }

  /** It had been opened twice.  The first iput counts two references ... */
  lemma FirstLocks()
    ensures Reached(Small(1, 0, 2, true, Some(0), Two(PutLocked, Held)))
  {
    OpenedUnlinked();
    Go(Small(1, 0, 1, true, None, One(Held)), Dup(0, 1), Small(1, 0, 2, true, None, Two(Held, Held)));
    Go(Small(1, 0, 2, true, None, Two(Held, Held)), PutLock(0), Small(1, 0, 2, true, Some(0), Two(PutLocked, Held)));
  }

  lemma FirstCounts()
    ensures Reached(Small(1, 0, 2, true, Some(0), Two(PutCounted(2), Held)))
  {
    FirstLocks();
    Go(Small(1, 0, 2, true, Some(0), Two(PutLocked, Held)), PutCount(0),
       Small(1, 0, 2, true, Some(0), Two(PutCounted(2), Held)));
  }

  lemma FirstLeaves()
    ensures Reached(Small(1, 0, 2, true, None, Two(PutUnlocked, Held)))
  {
    FirstCounts();
    Go(Small(1, 0, 2, true, Some(0), Two(PutCounted(2), Held)), PutFree(0), Small(1, 0, 2, true, None, Two(PutUnlocked, Held)));
  }

  /** ... and before it gives up its own so does the second. */
  lemma SecondCounts()
    ensures Reached(Small(1, 0, 2, true, Some(1), Two(PutUnlocked, PutCounted(2))))
  {
    FirstLeaves();
    Go(Small(1, 0, 2, true, None, Two(PutUnlocked, Held)), PutLock(1),
       Small(1, 0, 2, true, Some(1), Two(PutUnlocked, PutLocked)));
    Go(Small(1, 0, 2, true, Some(1), Two(PutUnlocked, PutLocked)), PutCount(1),
       Small(1, 0, 2, true, Some(1), Two(PutUnlocked, PutCounted(2))));
  }

  lemma BothLeave()
    ensures Reached(Small(1, 0, 2, true, None, Two(PutUnlocked, PutUnlocked)))
  {
    SecondCounts();
    Go(Small(1, 0, 2, true, Some(1), Two(PutUnlocked, PutCounted(2))), PutFree(1),
       Small(1, 0, 2, true, None, Two(PutUnlocked, PutUnlocked)));
  }

  /** So an inode can be left allocated with no link and no reference. */
  lemma UnlinkedLeft() returns (s: State)
    ensures Reached(s) && s.refs == map[] && Unlinked(s, FILE)
  {
    BothLeave();
    s := Small(1, 0, 1, true, None, map[1 := Ref(0, PutUnlocked)]);
    Go(Small(1, 0, 2, true, None, Two(PutUnlocked, PutUnlocked)), PutDrop(0), s);
    Go(s, PutDrop(1), Small(1, 0, 0, true, None, map[]));
    s := Small(1, 0, 0, true, None, map[]);
  }

  /** The only iput has found one reference and no link. */
  lemma AboutToFree()
    ensures Reached(Small(1, 0, 1, true, Some(0), One(PutCounted(1))))
  {
    OpenedUnlinked();
    Go(Small(1, 0, 1, true, None, One(Held)), PutLock(0), Small(1, 0, 1, true, Some(0), One(PutLocked)));
    Go(Small(1, 0, 1, true, Some(0), One(PutLocked)), PutCount(0), Small(1, 0, 1, true, Some(0), One(PutCounted(1))));
  }

  /** A lookup through an old directory entry comes between: iput goes on to free an inode
      to which another has a reference. */
  lemma FreedUnderReference() returns (s: State)
    ensures Reached(s) && s.refs == Two(PutFreed, Held) && s.disk == map[FILE := Dinode(0, 0)]
  {
    AboutToFree();
    s := Small(1, 0, 2, true, Some(0), Two(PutCounted(1), Held));
    Go(Small(1, 0, 1, true, Some(0), One(PutCounted(1))), Lookup(1, FILE), s);
    Go(s, PutFree(0), Small(0, 0, 2, true, Some(0), Two(PutFreed, Held)));
    s := Small(0, 0, 2, true, Some(0), Two(PutFreed, Held));
  }

  /** Such a lookup comes after the inode was freed and its entry given up: ilock panics. */
  lemma FreedClear()
    ensures Reached(Small(0, 0, 1, false, None, One(PutUnlocked)))
  {
    AboutToFree();
    Go(Small(1, 0, 1, true, Some(0), One(PutCounted(1))), PutFree(0), Small(0, 0, 1, true, Some(0), One(PutFreed)));
    Go(Small(0, 0, 1, true, Some(0), One(PutFreed)), PutClear(0), Small(0, 0, 1, false, None, One(PutUnlocked)));
  }

  lemma LockOfFreed() returns (s: State)
    ensures Reached(s) && LockPanics(s, 1)
  {
    FreedClear();
    Go(Small(0, 0, 1, false, None, One(PutUnlocked)), PutDrop(0), Small(0, 0, 0, false, None, map[]));
    s := Small(0, 0, 1, false, None, map[1 := Ref(0, Held)]);
    Go(Small(0, 0, 0, false, None, map[]), Lookup(1, FILE), s);
  }
}
