/**
 What the users of inodes ask for and get (fs.c).  The inodes on disk and the copies in the
 cache are here computed from the calls alone: the number each reference was asked for, the
 type each ialloc was given, the link counts that were stored, and which iputs free.
 */
module InodeHistory {
  import opened Common
  import opened InodeCache

  /** For each live reference the inode it was asked for, for each iput the references it
      counted, and every inode. */
  datatype Told = Told(name: map<nat, Key>, counts: map<nat, nat>, inode: map<Key, Dinode>)

  /** The references to an inode. */
  function Users(name: map<nat, Key>, key: Key): set<nat> {
    set k | k in name && name[k] == key
  }

  function Stored(t: Told, key: Key, d: Dinode): Told {
    t.(inode := t.inode[key := d])
  }

  /** iput frees an inode if it counted one reference. */
  function ToldNext(t: Told, l: Label): Told {
    match l
    case Lookup(k, key) => t.(name := t.name[k := key])
    case AllocGet(k, key) => t.(name := t.name[k := key])
    case Dup(k, k') => if k in t.name then t.(name := t.name[k' := t.name[k]]) else t
    case Mark(key, kind) => Stored(t, key, Dinode(kind, 0))
    case Update(k, nlink) =>
      if k in t.name && t.name[k] in t.inode then Stored(t, t.name[k], t.inode[t.name[k]].(nlink := nlink)) else t
    case PutCount(k) => if k in t.name then t.(counts := t.counts[k := |Users(t.name, t.name[k])|]) else t
    case PutFree(k) =>
      if k in t.name && t.name[k] in t.inode && k in t.counts && t.counts[k] == 1
      then Stored(t, t.name[k], t.inode[t.name[k]].(kind := 0)) else t
    case PutDrop(k) => t.(name := t.name - {k})
    case _ => t
  }

  /** After the first n calls, from the inodes there were. */
  function ToldAt(disk: map<Key, Dinode>, ls: seq<Label>, n: nat): Told
    requires n <= |ls|
  {
    if n == 0 then Told(map[], map[], disk) else ToldNext(ToldAt(disk, ls, n - 1), ls[n - 1])
  }

  ghost predicate RefAgrees(s: State, t: Told, k: nat)
    requires k in s.refs
  {
    && k in t.name && s.refs[k].e < |s.entries| && Of(s, k).key == t.name[k]
    && (s.refs[k].at.PutCounted? ==> k in t.counts && t.counts[k] == s.refs[k].at.r)
  }

  ghost predicate Agrees(s: State, t: Told) {
    && t.inode == s.disk && t.name.Keys == s.refs.Keys
    && (forall k {:trigger RefAgrees(s, t, k)} :: k in s.refs ==> RefAgrees(s, t, k))
  }

  /** ip->ref is the number of references to the inode. */
  lemma RefCounts(s: State, t: Told, k: nat)
    requires Inv(s) && Agrees(s, t) && k in s.refs
    ensures k in t.name && s.refs[k].e < |s.entries| && Of(s, k).ref == |Users(t.name, t.name[k])|
  {
    assert RefOk(s, k) && EntryOk(s, s.refs[k].e) && RefAgrees(s, t, k);
    forall j ensures j in RefsTo(s.refs, s.refs[k].e) <==> j in Users(t.name, t.name[k]) {
      if j in s.refs {
        assert RefAgrees(s, t, j) && RefOk(s, j);
      }
    }
    assert RefsTo(s.refs, s.refs[k].e) == Users(t.name, t.name[k]);
  }

  /** A good copy is the inode. */
  lemma CopyIs(s: State, t: Told, k: nat)
    requires Inv(s) && Agrees(s, t) && k in s.refs && (s.refs[k].at == Locked || s.refs[k].at.PutCounted?)
    ensures k in t.name && t.name[k] in t.inode && s.refs[k].e < |s.entries| && Of(s, k).copy == t.inode[t.name[k]]
    ensures Of(s, k).key == t.name[k]
  {
    assert RefOk(s, k) && EntryOk(s, s.refs[k].e) && RefAgrees(s, t, k);
  }

  lemma StepAgrees(s: State, t: Told, l: Label)
    requires Inv(s) && Agrees(s, t) && Enabled(s, l)
    ensures Agrees(Apply(s, l), ToldNext(t, l))
  {
    var s', t' := Apply(s, l), ToldNext(t, l);
    if l.Update? || l.PutFree? {
      CopyIs(s, t, l.k);
    }
    if l.PutCount? {
      RefCounts(s, t, l.k);
    }
    if l.PutFree? {
      assert RefAgrees(s, t, l.k);
    }
    forall k | k in s'.refs ensures RefAgrees(s', t', k) {
      StepRef(s, t, l, k);
    }
  }

  lemma StepRef(s: State, t: Told, l: Label, k: nat)
    requires Inv(s) && Agrees(s, t) && Enabled(s, l) && k in Apply(s, l).refs
    ensures RefAgrees(Apply(s, l), ToldNext(t, l), k)
  {
    if k in s.refs {
      assert RefAgrees(s, t, k) && RefOk(s, k);
    }
    if l.PutLock? || l.PutCount? || l.PutFree? || l.PutClear? || l.PutDrop? {
      PutRef(s, t, l, k);
    } else if l.Lookup? || l.AllocGet? {
      FindIs(s.entries, l.key);
    } else if l.Dup? {
      assert RefAgrees(s, t, l.k);
    }
  }

  lemma PutRef(s: State, t: Told, l: Label, k: nat)
    requires Inv(s) && Agrees(s, t) && Enabled(s, l) && k in Apply(s, l).refs
    requires l.PutLock? || l.PutCount? || l.PutFree? || l.PutClear? || l.PutDrop?
    ensures RefAgrees(Apply(s, l), ToldNext(t, l), k)
  {
    assert RefAgrees(s, t, k) && RefOk(s, k) && RefOk(s, l.k);
    if l.PutCount? {
      RefCounts(s, t, l.k);
    }
  }

  /** In every state of every run the inodes on disk, and the inode of each reference, are what
      the calls so far make them. */
  lemma {:induction false} RunAgrees(r: seq<State>, ls: seq<Label>, i: nat)
    requires IsRun(r, ls) && i < |r|
    ensures Agrees(r[i], ToldAt(r[0].disk, ls, i))
  {
    if i > 0 {
      RunAgrees(r, ls, i - 1);
      RunKeeps(r, ls, i - 1);
      StepAgrees(r[i - 1], ToldAt(r[0].disk, ls, i - 1), ls[i - 1]);
    }
  }

  /** Whoever has locked an inode sees the one asked for, as the calls have left it. */
  lemma LockedIsTold(r: seq<State>, ls: seq<Label>, i: nat, k: nat)
    requires IsRun(r, ls) && i < |r| && IsAt(r[i], k, Locked)
    ensures
      var t := ToldAt(r[0].disk, ls, i);
      && k in t.name && t.name[k] in t.inode
      && Of(r[i], k).key == t.name[k] && Of(r[i], k).copy == t.inode[t.name[k]]
  {
    RunAgrees(r, ls, i);
    RunKeeps(r, ls, i);
    CopyIs(r[i], ToldAt(r[0].disk, ls, i), k);
  }

  /** The type that ialloc was last given for an inode, or else the one it had. */
  function LastKind(disk: map<Key, Dinode>, ls: seq<Label>, n: nat, key: Key): nat
    requires n <= |ls| && key in disk
  {
    if n == 0 then disk[key].kind
    else if ls[n - 1].Mark? && ls[n - 1].key == key then ls[n - 1].kind
    else LastKind(disk, ls, n - 1, key)
  }

  /** An inode in use has that type on disk. */
  lemma {:induction false} KindIsGiven(r: seq<State>, ls: seq<Label>, i: nat, key: Key)
    requires IsRun(r, ls) && i < |r| && key in r[0].disk
    ensures key in r[i].disk && (r[i].disk[key].kind == 0 || r[i].disk[key].kind == LastKind(r[0].disk, ls, i, key))
  {
    if i > 0 {
      KindIsGiven(r, ls, i - 1, key);
      RunAgrees(r, ls, i - 1);
      RunAgrees(r, ls, i);
    }
  }

  /** One call of ialloc: step m gives inode key the type kind and step g, its iget, makes
      reference k, which nobody has given back before step n.  Up to step n no lookup was
      stale, and since step m nobody has stored a link count in that inode. */
  ghost predicate Made(r: seq<State>, ls: seq<Label>, m: nat, g: nat, n: nat, key: Key, kind: nat, k: nat) {
    && IsRun(r, ls) && m < g < n < |ls| && ls[m] == Mark(key, kind) && ls[g] == AllocGet(k, key)
    && (forall j :: m < j < g ==> !(ls[j].AllocGet? && ls[j].key == key))
    && (forall j :: g < j < n ==> ls[j] != PutLock(k))
    && (forall j :: 0 <= j < n ==> !Stale(r[j], ls[j]))
    && (forall j :: m < j < n && ls[j].Update? ==> !Names(r, ls, j, ls[j].k, key))
  }

  /** By the calls before step j, reference k is to inode key. */
  ghost predicate Names(r: seq<State>, ls: seq<Label>, j: nat, k: nat, key: Key)
    requires |r| > 0 && j <= |ls|
  {
    var t := ToldAt(r[0].disk, ls, j);
    k in t.name && t.name[k] == key
  }

  /** The inode is the new one, and nobody else's. */
  ghost predicate IsNew(s: State, key: Key, kind: nat, k: nat, got: bool) {
    && key in s.disk && s.disk[key] == Dinode(kind, 0)
    && (!got ==> key in s.marked)
    && (got ==> k in s.refs && s.refs[k].e < |s.entries| && Of(s, k).key == key && (s.refs[k].at == Held || s.refs[k].at == Locked))
  }

  lemma NewStep(r: seq<State>, ls: seq<Label>, m: nat, g: nat, n: nat, key: Key, kind: nat, k: nat, j: nat)
    requires Made(r, ls, m, g, n, key, kind, k) && m < j < n && IsNew(r[j], key, kind, k, j > g)
    ensures IsNew(r[j + 1], key, kind, k, j + 1 > g)
  {
    var s, s', l := r[j], r[j + 1], ls[j];
    RunKeeps(r, ls, j);
    RunAgrees(r, ls, j);
    NotFreed(r, ls, m, g, n, key, kind, k, j);
    if l.Update? {
      CopyIs(s, ToldAt(r[0].disk, ls, j), l.k);
      assert !Names(r, ls, j, l.k, key);
    }
    assert s'.disk[key] == s.disk[key];
    if j > g {
      assert RefOk(s, k);
      NewRef(s, l, k);
    } else if j == g {
      FindIs(s.entries, key);
    }
  }

  lemma NewRef(s: State, l: Label, k: nat)
    requires Inv(s) && Enabled(s, l) && l != PutLock(k)
    requires k in s.refs && s.refs[k].e < |s.entries| && (s.refs[k].at == Held || s.refs[k].at == Locked)
    ensures
      var s' := Apply(s, l);
      && k in s'.refs && s'.refs[k].e < |s'.entries| && Of(s', k).key == Of(s, k).key
      && (s'.refs[k].at == Held || s'.refs[k].at == Locked)
  {
    assert RefOk(s, k);
    if l.Lookup? || l.AllocGet? {
      FindIs(s.entries, l.key);
    }
  }

  /** No iput frees it. */
  lemma NotFreed(r: seq<State>, ls: seq<Label>, m: nat, g: nat, n: nat, key: Key, kind: nat, k: nat, j: nat)
    requires Made(r, ls, m, g, n, key, kind, k) && m < j < n && IsNew(r[j], key, kind, k, j > g)
    ensures ls[j].PutFree? ==> r[j].refs[ls[j].k].at != PutCounted(1) || Of(r[j], ls[j].k).key != key
  {
    var s, l := r[j], ls[j];
    if l.PutFree? && s.refs[l.k].at == PutCounted(1) {
      FreedBySoleHolder(r, ls, j, l.k);
      RunKeeps(r, ls, j);
      if j > g {
        SameEntry(s, k, l.k);
      }
    }
  }

  lemma SameEntry(s: State, k: nat, k': nat)
    requires Inv(s) && k in s.refs && k' in s.refs
    ensures s.refs[k].e < |s.entries| && s.refs[k'].e < |s.entries|
    ensures Of(s, k).key == Of(s, k').key ==> k in RefsTo(s.refs, s.refs[k'].e)
  {
    assert RefOk(s, k) && RefOk(s, k') && EntryOk(s, s.refs[k].e) && EntryOk(s, s.refs[k'].e);
  }

  lemma {:induction false} StaysNew(r: seq<State>, ls: seq<Label>, m: nat, g: nat, n: nat, key: Key, kind: nat, k: nat, j: nat)
    requires Made(r, ls, m, g, n, key, kind, k) && m < j <= n
    ensures IsNew(r[j], key, kind, k, j > g)
    decreases j
  {
    if j == m + 1 {
      assert r[j] == DoMark(r[m], key, kind);
    } else {
      StaysNew(r, ls, m, g, n, key, kind, k, j - 1);
      NewStep(r, ls, m, g, n, key, kind, k, j - 1);
    }
  }

  /** The caller of ialloc, once it has locked the inode, has one of the type that it asked
      for, with no links: so long as no lookup was stale and nobody stored a link count. */
  lemma NewInode(r: seq<State>, ls: seq<Label>, m: nat, g: nat, n: nat, key: Key, kind: nat, k: nat)
    requires Made(r, ls, m, g, n, key, kind, k) && ls[n] == Lock(k)
    ensures IsAt(r[n + 1], k, Locked) && Of(r[n + 1], k).key == key && Of(r[n + 1], k).copy == Dinode(kind, 0)
  {
    StaysNew(r, ls, m, g, n, key, kind, k, n);
    RunKeeps(r, ls, n + 1);
    RunAgrees(r, ls, n + 1);
    CopyIs(r[n + 1], ToldAt(r[0].disk, ls, n + 1), k);
  }
}
