/**
 The buffer cache's list (bio.c): which buffer bget returns, and the order brelse keeps.

 Buffers are numbered 0 to NBUF-1, and NBUF is the list head.  `order` is the list from the
 most to the least recently used.  The methods are the parts under bcache.lock; the
 buffers' sleep-locks and contents are in module Storage.
 */
module BufferCache {
  import opened Common

  // ----- the ring of links -------------------------------------------------

  function Succ(ring: seq<nat>, i: nat): nat
    requires i < |ring|
  {
    if i + 1 < |ring| then ring[i + 1] else ring[0]
  }

  ghost predicate LinkOk(next: seq<nat>, prev: seq<nat>, ring: seq<nat>, i: nat)
    requires i < |ring|
  {
    && ring[i] < |next| == |prev| && Succ(ring, i) < |prev|
    && next[ring[i]] == Succ(ring, i) && prev[Succ(ring, i)] == ring[i]
  }

  /** next and prev go round the ring in the two directions. */
  ghost predicate Linked(next: seq<nat>, prev: seq<nat>, ring: seq<nat>) {
    && |ring| > 0 && |next| == |prev| && Distinct(ring)
    && (forall i {:trigger LinkOk(next, prev, ring, i)} :: 0 <= i < |ring| ==> LinkOk(next, prev, ring, i))
  }

  function Without(ring: seq<nat>, k: nat): seq<nat>
    requires k < |ring|
  {
    ring[..k] + ring[k + 1..]
  }

  /** b->next->prev = b->prev; b->prev->next = b->next */
  lemma Unlink(next: seq<nat>, prev: seq<nat>, ring: seq<nat>, k: nat)
    requires Linked(next, prev, ring) && 0 < k < |ring|
    ensures
      var b := ring[k];
      && b < |next| && prev[b] < |next| && next[b] < |next|
      && Linked(next[prev[b] := next[b]], prev[next[b] := prev[b]], Without(ring, k))
      && b !in Without(ring, k)
  {
    var b, ring' := ring[k], Without(ring, k);
    assert LinkOk(next, prev, ring, k) && LinkOk(next, prev, ring, k - 1);
    var next', prev' := next[prev[b] := next[b]], prev[next[b] := prev[b]];
    forall i | 0 <= i < |ring'| ensures LinkOk(next', prev', ring', i) {
      var j := if i < k then i else i + 1;
      assert ring'[i] == ring[j] && LinkOk(next, prev, ring, j);
      if i == k - 1 {
        assert Succ(ring', i) == Succ(ring, k);
      } else {
        assert Succ(ring', i) == Succ(ring, j);
        SuccApart(ring, j, k);
      }
    }
  }

  lemma SuccApart(ring: seq<nat>, j: nat, k: nat)
    requires Distinct(ring) && j < |ring| && k < |ring| && j != k
    ensures Succ(ring, j) != Succ(ring, k)
  {
  }

  /** b goes in after the head. */
  lemma Insert(next: seq<nat>, prev: seq<nat>, ring: seq<nat>, b: nat)
    requires Linked(next, prev, ring) && b < |next| && b !in ring
    ensures
      var h := ring[0];
      && h < |next| && next[h] < |next|
      && Linked(next[b := next[h]][h := b], prev[b := h][next[h] := b], [h, b] + ring[1..])
  {
    var h, ring' := ring[0], [ring[0], b] + ring[1..];
    assert LinkOk(next, prev, ring, 0);
    var next', prev' := next[b := next[h]][h := b], prev[b := h][next[h] := b];
    forall i | 0 <= i < |ring'| ensures LinkOk(next', prev', ring', i) {
      if i == 1 {
        assert Succ(ring', 1) == Succ(ring, 0);
      } else if i > 1 {
        assert ring'[i] == ring[i - 1] && LinkOk(next, prev, ring, i - 1) && Succ(ring', i) == Succ(ring, i - 1);
        SuccApart(ring, i - 1, 0);
      }
    }
  }

  // ----- the cache ---------------------------------------------------------

  datatype Buf = Buf(dev: nat, blockno: nat, valid: bool, dirty: bool, refcnt: nat)

  predicate Caches(x: Buf, dev: nat, blockno: nat) {
    x.dev == dev && x.blockno == blockno
  }

  /** May be used for another block: nobody has it, and the log does not wait for it. */
  predicate Unused(x: Buf) {
    x.refcnt == 0 && !x.dirty
  }

  /** No block of a device is in two buffers.  (At first all buffers say device 0, block 0.) */
  ghost predicate Unique(bufs: seq<Buf>) {
    forall i, j :: 0 <= i < j < |bufs| && bufs[i].dev > 0 && bufs[i].dev == bufs[j].dev ==> bufs[i].blockno != bufs[j].blockno
  }

  ghost predicate OrderOk(order: seq<nat>) {
    && (forall i :: 0 <= i < |order| ==> order[i] < NBUF)
    && (forall b :: 0 <= b < NBUF ==> b in order)
  }

  ghost predicate Repr(bufs: seq<Buf>, next: seq<nat>, prev: seq<nat>, order: seq<nat>) {
    && |bufs| == NBUF && |next| == |prev| == NBUF + 1 && Linked(next, prev, [NBUF] + order) && OrderOk(order)
  }

  /** One step along the list, in either direction. */
  lemma Step(bufs: seq<Buf>, next: seq<nat>, prev: seq<nat>, order: seq<nat>, k: nat)
    requires Repr(bufs, next, prev, order) && k <= |order|
    ensures var b := if k == 0 then NBUF else order[k - 1];
            b <= NBUF && next[b] == if k < |order| then order[k] else NBUF
    ensures var b := if k == |order| then NBUF else order[k];
            b <= NBUF && prev[b] == if k == 0 then NBUF else order[k - 1]
  {
    assert LinkOk(next, prev, [NBUF] + order, k);
  }

  /** The buffer that is to be recycled: unused, and all that were used less recently are in
      use. */
  ghost predicate LeastRecent(bufs: seq<Buf>, order: seq<nat>, b: nat) {
    exists m :: LeastRecentAt(bufs, order, b, m)
  }

  ghost predicate LeastRecentAt(bufs: seq<Buf>, order: seq<nat>, b: nat, m: nat) {
    && m < |order| && order[m] == b && b < |bufs| && Unused(bufs[b])
    && (forall j :: m < j < |order| && order[j] < |bufs| ==> !Unused(bufs[order[j]]))
  }

  /** b at the front, the others as they were. */
  ghost predicate MovedToFront(order: seq<nat>, order': seq<nat>, b: nat) {
    exists m :: 0 <= m < |order| && order[m] == b && order' == [b] + (order[..m] + order[m + 1..])
  }

  class Cache {
    var bufs: seq<Buf>
    var next: seq<nat>
    var prev: seq<nat>
    ghost var order: seq<nat>

    ghost predicate Valid()
      reads this
    {
      Repr(bufs, next, prev, order) && Unique(bufs)
    }

    /** binit */
    constructor ()
      ensures Valid() && forall b :: 0 <= b < NBUF ==> bufs[b] == Buf(0, 0, false, false, 0)
    {
      bufs := seq(NBUF, _ => Buf(0, 0, false, false, 0));
      next := seq(NBUF + 1, _ => NBUF);
      prev := seq(NBUF + 1, _ => NBUF);
      order := [];
      new;
      assert LinkOk(next, prev, [NBUF] + order, 0);
      var b := 0;
      while b < NBUF
        invariant b <= NBUF && |next| == |prev| == NBUF + 1 && Linked(next, prev, [NBUF] + order)
        invariant bufs == seq(NBUF, _ => Buf(0, 0, false, false, 0))
        invariant (forall i :: 0 <= i < |order| ==> order[i] < b) && (forall x :: 0 <= x < b ==> x in order)
      {
        Insert(next, prev, [NBUF] + order, b);
        assert [NBUF, b] + ([NBUF] + order)[1..] == [NBUF] + ([b] + order);
        PutFirst(b);
        ghost var was := order;
        order := [b] + order;
        assert forall x :: 0 <= x < b ==> x in was;
        assert order[0] == b && forall i :: 0 <= i < |was| ==> order[i + 1] == was[i];
        b := b + 1;
      }
    }

    /** b->next = head.next; b->prev = &head; head.next->prev = b; head.next = b */
    method PutFirst(b: nat)
      requires |next| == |prev| == NBUF + 1 && b < NBUF && next[NBUF] <= NBUF
      modifies this`next, this`prev
      ensures next == old(next)[b := old(next)[NBUF]][NBUF := b]
      ensures prev == old(prev)[b := NBUF][old(next)[NBUF] := b]
    {
      next := next[b := next[NBUF]];
      prev := prev[b := NBUF];
      prev := prev[next[NBUF] := b];
      next := next[NBUF := b];
    }

    /** bget's first loop: the buffer that has the block, if one has. */
    method Lookup(dev: nat, blockno: nat) returns (found: bool, b: nat)
      requires Valid()
      ensures found ==> b < NBUF && Caches(bufs[b], dev, blockno)
      ensures !found ==> forall i :: 0 <= i < NBUF ==> !Caches(bufs[i], dev, blockno)
    {
      ghost var k: nat := 0;
      Step(bufs, next, prev, order, 0);
      b := next[NBUF];
      while b != NBUF
        invariant k <= |order| && b == if k < |order| then order[k] else NBUF
        invariant forall i :: 0 <= i < k ==> !Caches(bufs[order[i]], dev, blockno)
        decreases |order| - k
      {
        if Caches(bufs[b], dev, blockno) {
          return true, b;
        }
        Step(bufs, next, prev, order, k + 1);
        b := next[b];
        k := k + 1;
      }
      found := false;
      forall i | 0 <= i < NBUF ensures !Caches(bufs[i], dev, blockno) {
        assert i in order;
      }
    }

    /** Its second: from the other end, a buffer to recycle. */
    method Victim() returns (found: bool, b: nat)
      requires Valid()
      ensures found ==> LeastRecent(bufs, order, b) && b < NBUF && Unused(bufs[b])
      ensures !found ==> forall i :: 0 <= i < NBUF ==> !Unused(bufs[i])
    {
      ghost var k: nat := |order|;
      Step(bufs, next, prev, order, k);
      b := prev[NBUF];
      while b != NBUF
        invariant k <= |order| && b == if k > 0 then order[k - 1] else NBUF
        invariant forall i :: k <= i < |order| ==> !Unused(bufs[order[i]])
        decreases k
      {
        if bufs[b].refcnt == 0 && !bufs[b].dirty {
          assert LeastRecentAt(bufs, order, b, k - 1);
          return true, b;
        }
        Step(bufs, next, prev, order, k - 1);
        b := prev[b];
        k := k - 1;
      }
      found := false;
      forall i | 0 <= i < NBUF ensures !Unused(bufs[i]) {
        assert i in order;
      }
    }

    /** bget.  A block that is cached is found; otherwise the least recently used buffer that
        nobody has and the log does not pin is taken for it.  It fails only if there is none. */
    method Bget(dev: nat, blockno: nat) returns (ok: bool, b: nat)
      requires Valid()
      modifies this`bufs
      ensures Valid()
      ensures ok ==> b < NBUF && Caches(bufs[b], dev, blockno)
      ensures ok && (exists i :: 0 <= i < NBUF && Caches(old(bufs)[i], dev, blockno)) ==>
                Caches(old(bufs)[b], dev, blockno) && bufs == old(bufs)[b := old(bufs)[b].(refcnt := old(bufs)[b].refcnt + 1)]
      ensures ok && !(exists i :: 0 <= i < NBUF && Caches(old(bufs)[i], dev, blockno)) ==>
                LeastRecent(old(bufs), order, b) && bufs == old(bufs)[b := Buf(dev, blockno, false, false, 1)]
      ensures !ok ==> bufs == old(bufs) && forall i :: 0 <= i < NBUF ==> !Caches(bufs[i], dev, blockno) && !Unused(bufs[i])
    {
      ok, b := Lookup(dev, blockno);
      if ok {
        bufs := bufs[b := bufs[b].(refcnt := bufs[b].refcnt + 1)];
        return;
      }
      ok, b := Victim();
      if ok {
        bufs := bufs[b := Buf(dev, blockno, false, false, 1)];
      }
    }

    /** Out of its place in the list and in at the front. */
    method MoveToFront(b: nat, ghost m: nat)
      requires Repr(bufs, next, prev, order) && b < NBUF && m < |order| && order[m] == b
      modifies this`next, this`prev, this`order
      ensures Repr(bufs, next, prev, order) && order == [b] + (old(order)[..m] + old(order)[m + 1..])
    {
      ghost var rest := order[..m] + order[m + 1..];
      Unlink(next, prev, [NBUF] + order, m + 1);
      assert Without([NBUF] + order, m + 1) == [NBUF] + rest;
      prev, next := prev[next[b] := prev[b]], next[prev[b] := next[b]];
      Insert(next, prev, [NBUF] + rest, b);
      assert [NBUF, b] + ([NBUF] + rest)[1..] == [NBUF] + ([b] + rest);
      PutFirst(b);
      FrontOrder(order, m);
      order := [b] + rest;
    }

    /** brelse: a buffer that nobody has any more becomes the most recently used. */
    method Brelse(b: nat)
      requires Valid() && b < NBUF && bufs[b].refcnt > 0
      modifies this
      ensures Valid() && bufs == old(bufs)[b := old(bufs)[b].(refcnt := old(bufs)[b].refcnt - 1)]
      ensures if bufs[b].refcnt == 0 then MovedToFront(old(order), order, b) else order == old(order)
    {
      bufs := bufs[b := bufs[b].(refcnt := bufs[b].refcnt - 1)];
      if bufs[b].refcnt == 0 {
        assert b in order;
        ghost var m :| 0 <= m < |order| && order[m] == b;
        MoveToFront(b, m);
      }
    }
  }

  lemma FrontOrder(order: seq<nat>, m: nat)
    requires OrderOk(order) && m < |order|
    ensures OrderOk([order[m]] + (order[..m] + order[m + 1..]))
  {
    var order' := [order[m]] + (order[..m] + order[m + 1..]);
    forall b | 0 <= b < NBUF ensures b in order' {
      assert b in order;
      var i :| 0 <= i < |order| && order[i] == b;
      assert order'[if i == m then 0 else if i < m then i + 1 else i] == b;
    }
  }
}
