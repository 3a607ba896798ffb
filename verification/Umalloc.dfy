/**
 The user-space heap (umalloc.c), after section 8.7 of The C Programming Language, second
 edition: a circular list of free blocks in address order, searched first-fit from a
 roving pointer, with splitting and coalescing.

 Addresses and sizes are in units of one Header.  The answer sbrk gives is a parameter.
 */
module Umalloc {

  datatype Block = Block(addr: nat, size: nat) {
    ghost predicate Has(c: int) {
      addr <= c < addr + size
    }

    function End(): nat {
      addr + size
    }
  }

  // ----- the free list as a value ------------------------------------------

  /** In address order, none empty, no two overlapping or even touching. */
  ghost predicate Coalesced(bs: seq<Block>) {
    && (forall i :: 0 <= i < |bs| ==> bs[i].size > 0)
    && (forall i, j :: 0 <= i < j < |bs| ==> bs[i].End() < bs[j].addr)
  }

  ghost predicate Covers(bs: seq<Block>, c: int) {
    exists i :: 0 <= i < |bs| && bs[i].Has(c)
  }

  ghost predicate Apart(bs: seq<Block>, b: Block) {
    forall i :: 0 <= i < |bs| ==> bs[i].End() <= b.addr || b.End() <= bs[i].addr
  }

  /** How many blocks start below address a. */
  function Below(bs: seq<Block>, a: nat): (k: nat)
    ensures k <= |bs|
  {
    if bs == [] || bs[0].addr >= a then 0 else 1 + Below(bs[1..], a)
  }

  lemma {:induction false} BelowSplits(bs: seq<Block>, a: nat)
    requires Coalesced(bs)
    ensures forall i :: 0 <= i < Below(bs, a) ==> bs[i].addr < a
    ensures forall i :: Below(bs, a) <= i < |bs| ==> a <= bs[i].addr
    decreases |bs|
  {
    if bs != [] && bs[0].addr < a {
      BelowSplits(bs[1..], a);
      forall i | Below(bs, a) <= i < |bs| ensures a <= bs[i].addr {
        assert bs[i] == bs[1..][i - 1];
      }
      forall i | 0 < i < Below(bs, a) ensures bs[i].addr < a {
        assert bs[i] == bs[1..][i - 1];
      }
    }
  }

  predicate JoinsUp(bs: seq<Block>, b: Block) {
    Below(bs, b.addr) < |bs| && b.End() == bs[Below(bs, b.addr)].addr
  }

  predicate JoinsDown(bs: seq<Block>, b: Block) {
    Below(bs, b.addr) > 0 && bs[Below(bs, b.addr) - 1].End() == b.addr
  }

  function Splice(bs: seq<Block>, m: nat, b: Block, h: nat): seq<Block>
    requires m <= h <= |bs|
  {
    bs[..m] + [b] + bs[h..]
  }

  /** The block that b becomes when it joins its neighbours. */
  function Joined(bs: seq<Block>, b: Block): Block {
    var k := Below(bs, b.addr);
    var up := if JoinsUp(bs, b) then Block(b.addr, b.size + bs[k].size) else b;
    if JoinsDown(bs, b) then Block(bs[k - 1].addr, bs[k - 1].size + up.size) else up
  }

  /** What free() makes of the list: b goes in at its place, and joins the neighbour
      above it, the one below it, both, or neither. */
  function Put(bs: seq<Block>, b: Block): seq<Block> {
    var k := Below(bs, b.addr);
    Splice(bs, if JoinsDown(bs, b) then k - 1 else k, Joined(bs, b), if JoinsUp(bs, b) then k + 1 else k)
  }

  lemma SpliceCoalesced(bs: seq<Block>, m: nat, b: Block, h: nat)
    requires Coalesced(bs) && m <= h <= |bs| && b.size > 0
    requires m > 0 ==> bs[m - 1].End() < b.addr
    requires h < |bs| ==> b.End() < bs[h].addr
    ensures Coalesced(Splice(bs, m, b, h))
  {
    assert forall i :: 0 <= i < m ==> bs[i].End() < b.addr;
    assert forall i :: h <= i < |bs| ==> b.End() < bs[i].addr;
  }

  lemma PutCoalesced(bs: seq<Block>, b: Block)
    requires Coalesced(bs) && Apart(bs, b) && b.size > 0
    ensures Coalesced(Put(bs, b))
  {
    BelowSplits(bs, b.addr);
    var k := Below(bs, b.addr);
    SpliceCoalesced(bs, if JoinsDown(bs, b) then k - 1 else k, Joined(bs, b), if JoinsUp(bs, b) then k + 1 else k);
  }

  lemma SpliceCovers(bs: seq<Block>, m: nat, b: Block, h: nat, c: int)
    requires m <= h <= |bs|
    ensures Covers(Splice(bs, m, b, h), c) <==>
      b.Has(c) || exists i :: 0 <= i < |bs| && !(m <= i < h) && bs[i].Has(c)
  {
    var r := Splice(bs, m, b, h);
    if b.Has(c) {
      assert r[m].Has(c);
    }
    if i :| 0 <= i < |bs| && !(m <= i < h) && bs[i].Has(c) {
      assert r[if i < m then i else i - h + m + 1].Has(c);
    }
    if i :| 0 <= i < |r| && r[i].Has(c) && i != m {
      assert bs[if i < m then i else i + h - m - 1].Has(c);
    }
  }

  lemma PutCovers(bs: seq<Block>, b: Block, c: int)
    requires Coalesced(bs) && Apart(bs, b) && b.size > 0
    ensures Covers(Put(bs, b), c) <==> Covers(bs, c) || b.Has(c)
  {
    BelowSplits(bs, b.addr);
    var k := Below(bs, b.addr);
    var m, h := if JoinsDown(bs, b) then k - 1 else k, if JoinsUp(bs, b) then k + 1 else k;
    SpliceCovers(bs, m, Joined(bs, b), h, c);
    assert Joined(bs, b).Has(c) <==> b.Has(c) || exists i :: m <= i < h && bs[i].Has(c);
  }

  /** What malloc() makes of the list: the last n units of block i leave it. */
  function Take(bs: seq<Block>, i: nat, n: nat): seq<Block>
    requires i < |bs| && n <= bs[i].size
  {
    if bs[i].size == n then bs[..i] + bs[i + 1..]
    else bs[i := Block(bs[i].addr, bs[i].size - n)]
  }

  function Taken(bs: seq<Block>, i: nat, n: nat): Block
    requires i < |bs| && n <= bs[i].size
  {
    Block(bs[i].End() - n, n)
  }

  lemma TakeCoalesced(bs: seq<Block>, i: nat, n: nat)
    requires Coalesced(bs) && i < |bs| && 0 < n <= bs[i].size
    ensures Coalesced(Take(bs, i, n)) && Apart(Take(bs, i, n), Taken(bs, i, n))
  {
  }

  lemma TakeCovers(bs: seq<Block>, i: nat, n: nat, c: int)
    requires Coalesced(bs) && i < |bs| && 0 < n <= bs[i].size
    ensures Covers(bs, c) <==> Covers(Take(bs, i, n), c) || Taken(bs, i, n).Has(c)
    ensures !(Covers(Take(bs, i, n), c) && Taken(bs, i, n).Has(c))
  {
    var r := Take(bs, i, n);
    TakeCoalesced(bs, i, n);
    if j :| 0 <= j < |bs| && bs[j].Has(c) {
      if bs[i].size == n && j > i {
        assert r[j - 1].Has(c);
      } else if j != i {
        assert r[j].Has(c);
      } else if !Taken(bs, i, n).Has(c) {
        assert r[i].Has(c);
      }
    }
    if j :| 0 <= j < |r| && r[j].Has(c) {
      if bs[i].size == n && j >= i {
        assert bs[j + 1].Has(c);
      } else {
        assert bs[j].Has(c);
      }
    }
    if Taken(bs, i, n).Has(c) {
      assert bs[i].Has(c);
    }
  }

  // ----- the list in memory ------------------------------------------------

  /** The i-th header on the ring: base, then the free blocks in order. */
  function At(base: nat, bs: seq<Block>, i: nat): nat
    requires i <= |bs|
  {
    if i == 0 then base else bs[i - 1].addr
  }

  /** The header after the i-th. */
  function Next(base: nat, bs: seq<Block>, i: nat): nat
    requires i <= |bs|
  {
    if i == |bs| then base else bs[i].addr
  }

  ghost predicate LinkAt(ptr: map<nat, nat>, base: nat, bs: seq<Block>, i: nat)
    requires i <= |bs|
  {
    At(base, bs, i) in ptr && ptr[At(base, bs, i)] == Next(base, bs, i)
  }

  /** The headers' ptr and size fields hold the ring of base and bs. */
  ghost predicate Linked(ptr: map<nat, nat>, size: map<nat, nat>, base: nat, bs: seq<Block>) {
    && (forall i :: 0 <= i <= |bs| ==> LinkAt(ptr, base, bs, i))
    && (forall i :: 0 <= i < |bs| ==> bs[i].addr in size && size[bs[i].addr] == bs[i].size)
    && base in size && size[base] == 0
  }

  lemma LinkedSplice(
    base: nat, bs: seq<Block>, ptr': map<nat, nat>, size': map<nat, nat>, m: nat, b: Block, h: nat)
    requires m <= h <= |bs|
    requires forall i :: 0 <= i < m ==> LinkAt(ptr', base, bs, i)
    requires forall i :: h < i <= |bs| ==> LinkAt(ptr', base, bs, i)
    requires At(base, bs, m) in ptr' && ptr'[At(base, bs, m)] == b.addr
    requires b.addr in ptr' && ptr'[b.addr] == Next(base, bs, h)
    requires forall i :: 0 <= i < |bs| && !(m <= i < h) ==> bs[i].addr in size' && size'[bs[i].addr] == bs[i].size
    requires b.addr in size' && size'[b.addr] == b.size && base in size' && size'[base] == 0
    ensures Linked(ptr', size', base, Splice(bs, m, b, h))
  {
    var r := Splice(bs, m, b, h);
    forall i | 0 <= i <= |r| ensures LinkAt(ptr', base, r, i) {
      if i < m {
        assert LinkAt(ptr', base, bs, i);
      } else if i > m + 1 {
        assert LinkAt(ptr', base, bs, i - m - 1 + h);
      }
    }
  }

  lemma LinkedRemove(base: nat, bs: seq<Block>, ptr': map<nat, nat>, size: map<nat, nat>, k: nat)
    requires k < |bs|
    requires forall i :: 0 <= i <= |bs| && i != k && i != k + 1 ==> LinkAt(ptr', base, bs, i)
    requires At(base, bs, k) in ptr' && ptr'[At(base, bs, k)] == Next(base, bs, k + 1)
    requires forall i :: 0 <= i < |bs| ==> bs[i].addr in size && size[bs[i].addr] == bs[i].size
    requires base in size && size[base] == 0
    ensures Linked(ptr', size, base, bs[..k] + bs[k + 1..])
  {
    var r := bs[..k] + bs[k + 1..];
    forall i | 0 <= i <= |r| ensures LinkAt(ptr', base, r, i) {
      if i < k {
        assert LinkAt(ptr', base, bs, i);
      } else if i > k {
        assert LinkAt(ptr', base, bs, i + 1);
      }
    }
  }

  // ----- what every call keeps ---------------------------------------------

  ghost predicate LiveAt(live: map<nat, nat>, c: int) {
    exists a :: a in live && Block(a, live[a]).Has(c)
  }

  ghost predicate LiveApart(live: map<nat, nat>) {
    forall a, b {:trigger live[a], live[b]} :: a in live && b in live && a != b ==> a + live[a] <= b || b + live[b] <= a
  }

  /** The regions sbrk has given, in whatever order, do not overlap. */
  ghost predicate Disjoint(bs: seq<Block>) {
    forall i, j :: 0 <= i < j < |bs| ==> bs[i].End() <= bs[j].addr || bs[j].End() <= bs[i].addr
  }

  /** Above base lie the free blocks and the live allocations (`live` maps the header of each
      to its size); every unit of the regions `core` that sbrk gave is in exactly one of
      them. */
  ghost predicate Sound(base: nat, bs: seq<Block>, live: map<nat, nat>, core: seq<Block>) {
    && Coalesced(bs)
    && (forall i :: 0 <= i < |bs| ==> base < bs[i].addr)
    && (forall a {:trigger live[a]} :: a in live ==> 0 < live[a] && base < a && Apart(bs, Block(a, live[a])))
    && LiveApart(live)
    && Disjoint(core)
    && (forall c :: Covers(core, c) <==> Covers(bs, c) || LiveAt(live, c))
  }

  lemma SoundIsAPartition(base: nat, bs: seq<Block>, live: map<nat, nat>, core: seq<Block>, c: nat)
    requires Sound(base, bs, live, core)
    ensures !(Covers(bs, c) && LiveAt(live, c))
    ensures forall a, b :: a in live && b in live && Block(a, live[a]).Has(c) && Block(b, live[b]).Has(c) ==> a == b
    ensures forall i, j :: 0 <= i < |bs| && 0 <= j < |bs| && bs[i].Has(c) && bs[j].Has(c) ==> i == j
  {
  }

  lemma LiveAtRemove(live: map<nat, nat>, a: nat, c: int)
    requires a in live
    ensures LiveAt(live, c) <==> LiveAt(live - {a}, c) || Block(a, live[a]).Has(c)
  {
    if b :| b in live && Block(b, live[b]).Has(c) && b != a {
      assert b in live - {a};
    }
    if b :| b in live - {a} && Block(b, (live - {a})[b]).Has(c) {
      assert b in live;
    }
  }

  lemma LiveAtAdd(live: map<nat, nat>, a: nat, n: nat, c: int)
    requires a !in live
    ensures LiveAt(live[a := n], c) <==> LiveAt(live, c) || Block(a, n).Has(c)
  {
    LiveAtRemove(live[a := n], a, c);
    assert live[a := n] - {a} == live;
  }

  lemma SpliceKeepsApart(bs: seq<Block>, m: nat, b: Block, h: nat, x: Block)
    requires m <= h <= |bs| && Apart(bs, x) && (b.End() <= x.addr || x.End() <= b.addr)
    ensures Apart(Splice(bs, m, b, h), x)
  {
  }

  lemma PutKeepsApart(bs: seq<Block>, b: Block, x: Block)
    requires Coalesced(bs) && Apart(bs, b) && Apart(bs, x) && x.size > 0 && b.size > 0
    requires b.End() <= x.addr || x.End() <= b.addr
    ensures Apart(Put(bs, b), x)
  {
    BelowSplits(bs, b.addr);
    var k := Below(bs, b.addr);
    SpliceKeepsApart(bs, if JoinsDown(bs, b) then k - 1 else k, Joined(bs, b), if JoinsUp(bs, b) then k + 1 else k, x);
  }

  lemma PutStaysInside(base: nat, bs: seq<Block>, b: Block)
    requires base < b.addr && forall i :: 0 <= i < |bs| ==> base < bs[i].addr
    ensures forall i :: 0 <= i < |Put(bs, b)| ==> base < Put(bs, b)[i].addr
  {
  }

  lemma SoundPut(base: nat, bs: seq<Block>, live: map<nat, nat>, core: seq<Block>, a: nat)
    requires Sound(base, bs, live, core) && a in live
    ensures Sound(base, Put(bs, Block(a, live[a])), live - {a}, core)
  {
    var b := Block(a, live[a]);
    PutCoalesced(bs, b);
    PutStaysInside(base, bs, b);
    forall x | x in live - {a} ensures Apart(Put(bs, b), Block(x, live[x])) {
      PutKeepsApart(bs, b, Block(x, live[x]));
    }
    forall c ensures Covers(core, c) <==> Covers(Put(bs, b), c) || LiveAt(live - {a}, c) {
      PutCovers(bs, b, c);
      LiveAtRemove(live, a, c);
    }
  }

  lemma TakeKeepsApart(bs: seq<Block>, i: nat, n: nat, x: Block)
    requires Coalesced(bs) && i < |bs| && 0 < n <= bs[i].size && Apart(bs, x) && x.size > 0
    ensures Apart(Take(bs, i, n), x)
    ensures x.End() <= Taken(bs, i, n).addr || Taken(bs, i, n).End() <= x.addr
  {
    assert bs[i].End() <= x.addr || x.End() <= bs[i].addr;
  }

  lemma TakeLive(bs: seq<Block>, live: map<nat, nat>, i: nat, n: nat)
    requires Coalesced(bs) && i < |bs| && 0 < n <= bs[i].size && LiveApart(live)
    requires forall a :: a in live ==> 0 < live[a] && Apart(bs, Block(a, live[a]))
    ensures
      var t := Taken(bs, i, n);
      t.addr !in live && LiveApart(live[t.addr := n]) && forall a :: a in live ==> Apart(Take(bs, i, n), Block(a, live[a]))
  {
    forall a | a in live
      ensures Apart(Take(bs, i, n), Block(a, live[a]))
      ensures a + live[a] <= Taken(bs, i, n).addr || Taken(bs, i, n).End() <= a
    {
      TakeKeepsApart(bs, i, n, Block(a, live[a]));
    }
  }

  lemma SoundTake(base: nat, bs: seq<Block>, live: map<nat, nat>, core: seq<Block>, i: nat, n: nat)
    requires Sound(base, bs, live, core) && i < |bs| && 0 < n <= bs[i].size
    ensures Taken(bs, i, n).addr !in live
    ensures Sound(base, Take(bs, i, n), live[Taken(bs, i, n).addr := n], core)
  {
    var t, r := Taken(bs, i, n), Take(bs, i, n);
    TakeCoalesced(bs, i, n);
    TakeLive(bs, live, i, n);
    forall c ensures Covers(core, c) <==> Covers(r, c) || LiveAt(live[t.addr := n], c) {
      TakeCovers(bs, i, n, c);
      LiveAtAdd(live, t.addr, n, c);
    }
  }

  /** What does not touch the core touches nothing in it. */
  lemma OutsideCore(core: seq<Block>, b: Block, x: Block)
    requires Apart(core, b) && b.size > 0 && x.size > 0 && forall c :: x.Has(c) ==> Covers(core, c)
    ensures x.End() <= b.addr || b.End() <= x.addr
  {
    var c := if x.addr < b.addr then b.addr else x.addr;
    assert x.Has(c) ==> Covers(core, c);
  }

  lemma SoundGrow(base: nat, bs: seq<Block>, live: map<nat, nat>, core: seq<Block>, at: nat, n: nat)
    requires Sound(base, bs, live, core) && base < at && n > 0 && Apart(core, Block(at, n))
    ensures at !in live && Sound(base, bs, live[at := n], core + [Block(at, n)])
  {
    var b := Block(at, n);
    forall i | 0 <= i < |bs| ensures bs[i].End() <= at || at + n <= bs[i].addr {
      OutsideCore(core, b, bs[i]);
    }
    forall a | a in live ensures a + live[a] <= at || at + n <= a {
      OutsideCore(core, b, Block(a, live[a]));
    }
    forall c ensures Covers(core + [b], c) <==> Covers(bs, c) || LiveAt(live[at := n], c) {
      LiveAtAdd(live, at, n, c);
      SpliceCovers(core, |core|, b, |core|, c);
      assert Splice(core, |core|, b, |core|) == core + [b];
    }
  }

  // ----- counting units ----------------------------------------------------

  ghost function Range(a: nat, n: nat): (r: set<nat>)
    ensures |r| == n && forall c :: c in r <==> a <= c < a + n
  {
    if n == 0 then {} else Range(a, n - 1) + {a + n - 1}
  }

  function Units(bs: seq<Block>): nat {
    if bs == [] then 0 else bs[0].size + Units(bs[1..])
  }

  ghost function Cells(bs: seq<Block>): set<nat> {
    if bs == [] then {} else Range(bs[0].addr, bs[0].size) + Cells(bs[1..])
  }

  lemma CoversFirst(bs: seq<Block>, c: int)
    requires bs != []
    ensures Covers(bs, c) <==> bs[0].Has(c) || Covers(bs[1..], c)
  {
    if i :| 0 <= i < |bs| && bs[i].Has(c) && i > 0 {
      assert bs[1..][i - 1].Has(c);
    }
    if i :| 0 <= i < |bs[1..]| && bs[1..][i].Has(c) {
      assert bs[i + 1].Has(c);
    }
  }

  lemma {:induction false} CellsCount(bs: seq<Block>)
    requires Disjoint(bs)
    ensures |Cells(bs)| == Units(bs) && forall c: nat :: c in Cells(bs) <==> Covers(bs, c)
    decreases |bs|
  {
    if bs != [] {
      CellsCount(bs[1..]);
      forall c: nat ensures c in Cells(bs) <==> Covers(bs, c) {
        CoversFirst(bs, c);
      }
      forall c | c in Cells(bs[1..]) ensures !bs[0].Has(c) {
        var i :| 0 <= i < |bs[1..]| && bs[1..][i].Has(c);
        assert bs[0].End() <= bs[i + 1].addr || bs[i + 1].End() <= bs[0].addr;
      }
      assert Range(bs[0].addr, bs[0].size) !! Cells(bs[1..]);
    }
  }

  ghost function LiveUnits(live: map<nat, nat>): nat
    decreases |live|
  {
    if |live| == 0 then 0 else
      var a :| a in live;
      assert (live - {a}).Keys == live.Keys - {a};
      live[a] + LiveUnits(live - {a})
  }

  lemma LiveUnitsPick(live: map<nat, nat>) returns (a: nat)
    requires |live| != 0
    ensures a in live && LiveUnits(live) == live[a] + LiveUnits(live - {a})
  {
    a :| a in live && LiveUnits(live) == live[a] + LiveUnits(live - {a});
  }

  lemma LiveCells(live: map<nat, nat>, a: nat, rest: set<nat>)
    requires LiveApart(live) && a in live && forall c: nat :: c in rest <==> LiveAt(live - {a}, c)
    ensures |Range(a, live[a]) + rest| == live[a] + |rest|
    ensures forall c: nat :: c in Range(a, live[a]) + rest <==> LiveAt(live, c)
  {
    forall c: nat ensures c in Range(a, live[a]) + rest <==> LiveAt(live, c) {
      LiveAtRemove(live, a, c);
    }
    forall c | c in rest ensures !Block(a, live[a]).Has(c) {
      var b :| b in live - {a} && Block(b, (live - {a})[b]).Has(c);
      assert b in live && b != a;
    }
    assert Range(a, live[a]) !! rest;
  }

  lemma {:induction false} LiveCount(live: map<nat, nat>) returns (cells: set<nat>)
    requires LiveApart(live)
    ensures |cells| == LiveUnits(live) && forall c: nat :: c in cells <==> LiveAt(live, c)
    decreases |live|
  {
    if |live| == 0 {
      assert live == map[];
      cells := {};
    } else {
      var a := LiveUnitsPick(live);
      assert (live - {a}).Keys == live.Keys - {a};
      var rest := LiveCount(live - {a});
      LiveCells(live, a, rest);
      cells := Range(a, live[a]) + rest;
    }
  }

  /** Free units and live units add up to what sbrk has given. */
  lemma UnitsConserved(base: nat, bs: seq<Block>, live: map<nat, nat>, core: seq<Block>)
    requires Sound(base, bs, live, core)
    ensures Units(core) == Units(bs) + LiveUnits(live)
  {
    CellsCount(core);
    CellsCount(bs);
    var cells := LiveCount(live);
    DisjointUnion(Cells(core), Cells(bs), cells) by {
      forall c: nat ensures !(Covers(bs, c) && LiveAt(live, c)) {
        SoundIsAPartition(base, bs, live, core, c);
      }
    }
  }

  lemma DisjointUnion(a: set<nat>, b: set<nat>, c: set<nat>)
    requires forall x: nat :: x in a <==> x in b || x in c
    requires forall x: nat :: !(x in b && x in c)
    ensures |a| == |b| + |c|
  {
    assert a == b + c;
    assert b !! c;
  }

  // ----- the allocator -----------------------------------------------------

  const MINCORE: nat := 4096      // units asked of sbrk at a time
  const HEADER: nat := 8          // bytes in a unit

  function UnitsFor(nbytes: nat): nat {
    (nbytes + HEADER - 1) / HEADER + 1
  }

  function Core(nu: nat): nat {
    if nu < MINCORE then MINCORE else nu
  }

  ghost predicate Above(base: nat, bs: seq<Block>) {
    forall i :: 0 <= i < |bs| ==> base < bs[i].addr
  }

  lemma AtAscends(base: nat, bs: seq<Block>, i: nat, j: nat)
    requires Coalesced(bs) && Above(base, bs) && i < j <= |bs|
    ensures At(base, bs, i) < At(base, bs, j)
  {
  }

  /** The two exits of free()'s search: bp lies between p and q, or beyond either end. */
  predicate Stops(bp: nat, p: nat, q: nat) {
    (bp > p && bp < q) || (p >= q && (bp > p || bp < q))
  }

  /** They are taken at the header below bp and nowhere else. */
  lemma StopsAtPlace(base: nat, bs: seq<Block>, bp: nat, j: nat)
    requires Coalesced(bs) && Above(base, bs) && base < bp && j <= |bs|
    requires forall i :: 0 <= i < |bs| ==> bs[i].addr != bp
    ensures Stops(bp, At(base, bs, j), Next(base, bs, j)) <==> j == Below(bs, bp)
  {
    BelowSplits(bs, bp);
    if j < |bs| {
      AtAscends(base, bs, j, j + 1);
    }
  }

  /** free()'s stores, p being the header below bp: first into bp, then into p. */
  function FreePtr(ptr: map<nat, nat>, size: map<nat, nat>, p: nat, bp: nat): map<nat, nat>
    requires p in ptr && p in size && bp in size && (bp + size[bp] == ptr[p] ==> ptr[p] in ptr)
  {
    var q := if bp + size[bp] == ptr[p] then ptr[ptr[p]] else ptr[p];
    ptr[bp := q][p := if p + size[p] == bp then q else bp]
  }

  function FreeSize(ptr: map<nat, nat>, size: map<nat, nat>, p: nat, bp: nat): map<nat, nat>
    requires p in ptr && p in size && bp in size && (bp + size[bp] == ptr[p] ==> ptr[p] in size)
  {
    var n := if bp + size[bp] == ptr[p] then size[bp] + size[ptr[p]] else size[bp];
    if p + size[p] == bp then size[bp := n][p := size[p] + n] else size[bp := n]
  }

  lemma StoresElsewhere(
    ptr: map<nat, nat>, size: map<nat, nat>, base: nat, bs: seq<Block>, k: nat, bp: nat, ptr': map<nat, nat>)
    requires Coalesced(bs) && Above(base, bs) && Linked(ptr, size, base, bs) && k <= |bs|
    requires base != bp && forall i :: 0 <= i < |bs| ==> bs[i].addr != bp
    requires forall a :: a in ptr && a != bp && a != At(base, bs, k) ==> a in ptr' && ptr'[a] == ptr[a]
    ensures forall i :: 0 <= i <= |bs| && i != k ==> LinkAt(ptr', base, bs, i)
  {
    forall i | 0 <= i <= |bs| && i != k ensures LinkAt(ptr', base, bs, i) {
      assert LinkAt(ptr, base, bs, i);
      if i < k { AtAscends(base, bs, i, k); } else { AtAscends(base, bs, k, i); }
    }
  }

  lemma SizesElsewhere(
    size: map<nat, nat>, base: nat, bs: seq<Block>, k: nat, bp: nat, size': map<nat, nat>)
    requires Coalesced(bs) && Above(base, bs) && k <= |bs|
    requires forall i :: 0 <= i < |bs| ==> bs[i].addr in size && size[bs[i].addr] == bs[i].size
    requires base != bp && forall i :: 0 <= i < |bs| ==> bs[i].addr != bp
    requires forall a :: a in size && a != bp && a != At(base, bs, k) ==> a in size' && size'[a] == size[a]
    ensures forall i :: 0 <= i < |bs| && i != k - 1 ==> bs[i].addr in size' && size'[bs[i].addr] == bs[i].size
  {
    forall i | 0 <= i < |bs| && i != k - 1 ensures bs[i].addr in size' && size'[bs[i].addr] == bs[i].size {
      if i + 1 < k { AtAscends(base, bs, i + 1, k); } else { AtAscends(base, bs, k, i + 1); }
    }
  }

  ghost predicate Fits(base: nat, bs: seq<Block>, b: Block) {
    Coalesced(bs) && Above(base, bs) && b.size > 0 && base < b.addr && Apart(bs, b)
  }

  lemma PlaceFacts(ptr: map<nat, nat>, size: map<nat, nat>, base: nat, bs: seq<Block>, b: Block)
    requires Fits(base, bs, b) && Linked(ptr, size, base, bs)
    ensures
      var k := Below(bs, b.addr);
      var p, q := At(base, bs, k), Next(base, bs, k);
      && p in ptr && ptr[p] == q && p in size && q in size && q in ptr && p != b.addr
      && (b.End() == q <==> JoinsUp(bs, b))
      && (p + size[p] == b.addr <==> JoinsDown(bs, b))
      && (JoinsUp(bs, b) ==> size[q] == bs[k].size && ptr[q] == Next(base, bs, k + 1))
      && (JoinsDown(bs, b) ==> p == bs[k - 1].addr && size[p] == bs[k - 1].size)
  {
    BelowSplits(bs, b.addr);
    var k := Below(bs, b.addr);
    assert LinkAt(ptr, base, bs, k);
    assert LinkAt(ptr, base, bs, if k == |bs| then 0 else k + 1);
  }

  lemma LinkedPutDown(ptr: map<nat, nat>, size: map<nat, nat>, base: nat, bs: seq<Block>, b: Block, p: nat)
    requires Fits(base, bs, b) && Linked(ptr, size, base, bs) && b.addr in size && size[b.addr] == b.size
    requires p == At(base, bs, Below(bs, b.addr)) && p in ptr && p in size && ptr[p] in ptr && ptr[p] in size
    requires JoinsDown(bs, b)
    ensures Linked(FreePtr(ptr, size, p, b.addr), FreeSize(ptr, size, p, b.addr), base, Put(bs, b))
  {
    PlaceFacts(ptr, size, base, bs, b);
    var k := Below(bs, b.addr);
    var ptr', size' := FreePtr(ptr, size, p, b.addr), FreeSize(ptr, size, p, b.addr);
    StoresElsewhere(ptr, size, base, bs, k, b.addr, ptr');
    SizesElsewhere(size, base, bs, k, b.addr, size');
    assert LinkAt(ptr', base, bs, k - 1);
    LinkedSplice(base, bs, ptr', size', k - 1, Joined(bs, b), if JoinsUp(bs, b) then k + 1 else k);
  }

  lemma LinkedPutBeside(ptr: map<nat, nat>, size: map<nat, nat>, base: nat, bs: seq<Block>, b: Block, p: nat)
    requires Fits(base, bs, b) && Linked(ptr, size, base, bs) && b.addr in size && size[b.addr] == b.size
    requires p == At(base, bs, Below(bs, b.addr)) && p in ptr && p in size && ptr[p] in ptr && ptr[p] in size
    requires !JoinsDown(bs, b)
    ensures Linked(FreePtr(ptr, size, p, b.addr), FreeSize(ptr, size, p, b.addr), base, Put(bs, b))
  {
    PlaceFacts(ptr, size, base, bs, b);
    var k := Below(bs, b.addr);
    var ptr', size' := FreePtr(ptr, size, p, b.addr), FreeSize(ptr, size, p, b.addr);
    StoresElsewhere(ptr, size, base, bs, k, b.addr, ptr');
    assert forall i :: 0 <= i < |bs| ==> bs[i].addr != b.addr;
    LinkedSplice(base, bs, ptr', size', k, Joined(bs, b), if JoinsUp(bs, b) then k + 1 else k);
  }

  /** The stores of free(), against Put. */
  lemma LinkedPut(ptr: map<nat, nat>, size: map<nat, nat>, base: nat, bs: seq<Block>, b: Block)
    requires Fits(base, bs, b) && Linked(ptr, size, base, bs) && b.addr in size && size[b.addr] == b.size
    ensures
      var p := At(base, bs, Below(bs, b.addr));
      && p in ptr && p in size && ptr[p] in ptr && ptr[p] in size
      && Linked(FreePtr(ptr, size, p, b.addr), FreeSize(ptr, size, p, b.addr), base, Put(bs, b))
  {
    PlaceFacts(ptr, size, base, bs, b);
    var p := At(base, bs, Below(bs, b.addr));
    if JoinsDown(bs, b) {
      LinkedPutDown(ptr, size, base, bs, b, p);
    } else {
      LinkedPutBeside(ptr, size, base, bs, b, p);
    }
  }

  ghost predicate OnRing(base: nat, bs: seq<Block>, p: nat) {
    exists f :: 0 <= f <= |bs| && p == At(base, bs, f)
  }

  ghost predicate LiveSized(live: map<nat, nat>, size: map<nat, nat>) {
    forall a {:trigger live[a]} :: a in live ==> a in size && size[a] == live[a]
  }

  /** The allocator's variables and its headers in memory, against the values they stand
      for.  Until the first malloc() there is no ring and freep is null. */
  ghost predicate Repr(
    base: nat, ptr: map<nat, nat>, size: map<nat, nat>, freep: nat,
    bs: seq<Block>, live: map<nat, nat>, core: seq<Block>)
  {
    && 0 < base
    && Sound(base, bs, live, core)
    && LiveSized(live, size)
    && (freep == 0 ==> bs == [] && live == map[])
    && (freep != 0 ==> Linked(ptr, size, base, bs) && OnRing(base, bs, freep))
  }

  lemma StoresMissLive(
    base: nat, bs: seq<Block>, live: map<nat, nat>, core: seq<Block>, bp: nat, ptr: map<nat, nat>, size: map<nat, nat>)
    requires Sound(base, bs, live, core) && Linked(ptr, size, base, bs) && bp in live && LiveSized(live, size)
    ensures
      var p := At(base, bs, Below(bs, bp));
      && p in ptr && p in size && ptr[p] in ptr && ptr[p] in size && p != bp && base <= p
      && LiveSized(live - {bp}, FreeSize(ptr, size, p, bp))
      && (var k, bs' := Below(bs, bp), Put(bs, Block(bp, live[bp])); k <= |bs'| && p == At(base, bs', k))
  {
    var b := Block(bp, live[bp]);
    PlaceFacts(ptr, size, base, bs, b);
    var k := Below(bs, bp);
    forall a | a in live ensures a != At(base, bs, k) {
      assert Apart(bs, Block(a, live[a]));
    }
  }

  lemma FreeKeeps(
    base: nat, ptr: map<nat, nat>, size: map<nat, nat>, freep: nat,
    bs: seq<Block>, live: map<nat, nat>, core: seq<Block>, bp: nat)
    requires Repr(base, ptr, size, freep, bs, live, core) && bp in live
    ensures
      var p := At(base, bs, Below(bs, bp));
      && p in ptr && p in size && ptr[p] in ptr && ptr[p] in size && p != bp && p != 0
      && Repr(base, FreePtr(ptr, size, p, bp), FreeSize(ptr, size, p, bp), p,
              Put(bs, Block(bp, live[bp])), live - {bp}, core)
  {
    LinkedPut(ptr, size, base, bs, Block(bp, live[bp]));
    StoresMissLive(base, bs, live, core, bp, ptr, size);
    SoundPut(base, bs, live, core, bp);
  }

  lemma GrowKeeps(
    base: nat, ptr: map<nat, nat>, size: map<nat, nat>, freep: nat,
    bs: seq<Block>, live: map<nat, nat>, core: seq<Block>, at: nat, n: nat)
    requires Repr(base, ptr, size, freep, bs, live, core) && freep != 0 && base < at && Apart(core, Block(at, n)) && n > 0
    ensures at !in live && live[at := n] - {at} == live
    ensures Repr(base, ptr, size[at := n], freep, bs, live[at := n], core + [Block(at, n)])
  {
    SoundGrow(base, bs, live, core, at, n);
    assert live[at := n] - {at} == live;
  }

  ghost predicate AllBelow(bs: seq<Block>, n: nat) {
    forall i :: 0 <= i < |bs| ==> bs[i].size < n
  }

  function Succ(bs: seq<Block>, i: nat): nat {
    if i >= |bs| then 0 else i + 1
  }

  function SizeAt(bs: seq<Block>, i: nat): nat
    requires i <= |bs|
  {
    if i == 0 then 0 else bs[i - 1].size
  }

  /** Ring position x lies strictly between f and r, going round from f. */
  predicate Between(f: nat, x: nat, r: nat) {
    if f < r then f < x < r else x > f || x < r
  }

  /** The positions passed on the way from f to r are all too small. */
  ghost predicate Visited(bs: seq<Block>, f: nat, r: nat, n: nat) {
    forall i :: 0 <= i < |bs| && Between(f, i + 1, r) ==> bs[i].size < n
  }

  lemma AtInjective(base: nat, bs: seq<Block>, i: nat, j: nat)
    requires Coalesced(bs) && Above(base, bs) && i <= |bs| && j <= |bs| && At(base, bs, i) == At(base, bs, j)
    ensures i == j
  {
    if i < j { AtAscends(base, bs, i, j); } else if j < i { AtAscends(base, bs, j, i); }
  }

  lemma VisitNext(bs: seq<Block>, f: nat, r: nat, n: nat)
    requires f <= |bs| && r <= |bs| && Visited(bs, f, r, n) && SizeAt(bs, r) < n
    ensures r != f ==> Visited(bs, f, Succ(bs, r), n)
    ensures r == f ==> AllBelow(bs, n)
  {
  }

  /** New core fits the request also when it joins the block below it. */
  lemma PutMakesRoom(bs: seq<Block>, b: Block, n: nat)
    requires n <= b.size
    ensures !AllBelow(Put(bs, b), n)
  {
    var k := Below(bs, b.addr);
    assert Put(bs, b)[if JoinsDown(bs, b) then k - 1 else k] == Joined(bs, b);
  }

  lemma RingFacts(ptr: map<nat, nat>, size: map<nat, nat>, base: nat, bs: seq<Block>, r: nat)
    requires Linked(ptr, size, base, bs) && r <= |bs|
    ensures var p := At(base, bs, r);
      p in ptr && ptr[p] == At(base, bs, Succ(bs, r)) && p in size && size[p] == SizeAt(bs, r)
  {
    assert LinkAt(ptr, base, bs, r);
  }

  lemma InitKeeps(
    base: nat, ptr: map<nat, nat>, size: map<nat, nat>,
    bs: seq<Block>, live: map<nat, nat>, core: seq<Block>)
    requires Repr(base, ptr, size, 0, bs, live, core)
    ensures Repr(base, ptr[base := base], size[base := 0], base, bs, live, core)
  {
    assert base == At(base, bs, 0);
  }

  /** malloc()'s stores, p being the block found and prevp the header before it. */
  function TakePtr(ptr: map<nat, nat>, size: map<nat, nat>, prevp: nat, p: nat, n: nat): map<nat, nat>
    requires p in ptr && p in size
  {
    if size[p] == n then ptr[prevp := ptr[p]] else ptr
  }

  function TakeSize(size: map<nat, nat>, p: nat, n: nat): map<nat, nat>
    requires p in size && n <= size[p]
  {
    if size[p] == n then size else size[p := size[p] - n][p + size[p] - n := n]
  }

  lemma TakeLinked(ptr: map<nat, nat>, size: map<nat, nat>, base: nat, bs: seq<Block>, i: nat, n: nat)
    requires Coalesced(bs) && Above(base, bs) && Linked(ptr, size, base, bs) && i < |bs| && 0 < n <= bs[i].size
    ensures
      var prevp, p := At(base, bs, i), bs[i].addr;
      && prevp in ptr && p in ptr && p in size && size[p] == bs[i].size
      && Linked(TakePtr(ptr, size, prevp, p, n), TakeSize(size, p, n), base, Take(bs, i, n))
      && i <= |Take(bs, i, n)| && prevp == At(base, Take(bs, i, n), i)
  {
    assert LinkAt(ptr, base, bs, i) && LinkAt(ptr, base, bs, i + 1);
    var prevp, p := At(base, bs, i), bs[i].addr;
    if bs[i].size == n {
      var ptr' := TakePtr(ptr, size, prevp, p, n);
      forall j | 0 <= j <= |bs| && j != i ensures LinkAt(ptr', base, bs, j) {
        assert LinkAt(ptr, base, bs, j);
        if j < i { AtAscends(base, bs, j, i); } else { AtAscends(base, bs, i, j); }
      }
      LinkedRemove(base, bs, ptr', size, i);
    } else {
      var bs', size' := Take(bs, i, n), TakeSize(size, p, n);
      forall j | 0 <= j <= |bs'| ensures LinkAt(ptr, base, bs', j) {
        assert LinkAt(ptr, base, bs, j);
      }
    }
  }

  lemma LiveSizedTake(live: map<nat, nat>, size: map<nat, nat>, p: nat, n: nat, bp: nat)
    requires LiveSized(live, size) && p in size && n <= size[p] && bp == p + size[p] - n
    requires p !in live && bp !in live
    ensures LiveSized(live[bp := n], TakeSize(size, p, n))
  {
  }

  /** Where the new allocation's header goes: at the tail of block p. */
  function TakeAt(size: map<nat, nat>, p: nat, n: nat): nat
    requires p in size && n <= size[p]
  {
    p + size[p] - n
  }

  lemma TakeKeeps(
    base: nat, ptr: map<nat, nat>, size: map<nat, nat>, freep: nat,
    bs: seq<Block>, live: map<nat, nat>, core: seq<Block>, i: nat, n: nat)
    returns (bs': seq<Block>)
    requires Repr(base, ptr, size, freep, bs, live, core) && freep != 0 && i < |bs| && 0 < n <= bs[i].size
    ensures
      var prevp, p := At(base, bs, i), bs[i].addr;
      && prevp in ptr && p in ptr && p in size && size[p] == bs[i].size && prevp != 0 && TakeAt(size, p, n) !in live
      && Repr(base, TakePtr(ptr, size, prevp, p, n), TakeSize(size, p, n), prevp, bs', live[TakeAt(size, p, n) := n], core)
  {
    TakeLinked(ptr, size, base, bs, i, n);
    SoundTake(base, bs, live, core, i, n);
    assert TakeAt(size, bs[i].addr, n) == Taken(bs, i, n).addr;
    assert bs[i].addr !in live;
    LiveSizedTake(live, size, bs[i].addr, n, TakeAt(size, bs[i].addr, n));
    bs' := Take(bs, i, n);
  }

  class Heap {
    const base: nat
    var ptr: map<nat, nat>
    var size: map<nat, nat>
    var freep: nat
    ghost var bs: seq<Block>
    ghost var live: map<nat, nat>
    ghost var core: seq<Block>

    ghost predicate Valid()
      reads this
    {
      Repr(base, ptr, size, freep, bs, live, core)
    }

    constructor (base: nat)
      requires 0 < base
      ensures Valid() && freep == 0 && this.base == base
      ensures live == map[] && core == [] && bs == []
    {
      this.base := base;
      ptr, size, freep := map[], map[], 0;
      bs, live, core := [], map[], [];
    }

    /** The search at the head of free(): once round the ring at most, it stops at the
        header below bp. */
    method FindPlace(bp: nat) returns (p: nat)
      requires Coalesced(bs) && Above(base, bs) && base < bp
      requires Linked(ptr, size, base, bs) && OnRing(base, bs, freep)
      requires forall i :: 0 <= i < |bs| ==> bs[i].addr != bp
      ensures p == At(base, bs, Below(bs, bp))
    {
      ghost var k := Below(bs, bp);
      p := freep;
      ghost var j :| 0 <= j <= |bs| && p == At(base, bs, j);
      assert LinkAt(ptr, base, bs, j);
      while !(bp > p && bp < ptr[p])
        invariant 0 <= j <= |bs| && p == At(base, bs, j) && LinkAt(ptr, base, bs, j)
        decreases if j <= k then k - j else |bs| + 1 - j + k
      {
        if p >= ptr[p] && (bp > p || bp < ptr[p]) {
          break;
        }
        StopsAtPlace(base, bs, bp, j);
        p := ptr[p];
        j := if j == |bs| then 0 else j + 1;
        assert LinkAt(ptr, base, bs, j);
      }
      StopsAtPlace(base, bs, bp, j);
    }

    /** free()'s stores, once the place is found. */
    method Store(p: nat, bp: nat)
      requires p in ptr && p in size && bp in size && p != bp && ptr[p] in ptr && ptr[p] in size
      modifies this`ptr, this`size, this`freep
      ensures freep == p
      ensures ptr == FreePtr(old(ptr), old(size), p, bp) && size == FreeSize(old(ptr), old(size), p, bp)
    {
      if bp + size[bp] == ptr[p] {
        size := size[bp := size[bp] + size[ptr[p]]];
        ptr := ptr[bp := ptr[ptr[p]]];
      } else {
        ptr := ptr[bp := ptr[p]];
      }
      if p + size[p] == bp {
        size := size[p := size[p] + size[bp]];
        ptr := ptr[p := ptr[bp]];
      } else {
        ptr := ptr[p := bp];
      }
      freep := p;
    }

    method Free(bp: nat)
      requires Valid() && bp in live
      modifies this`ptr, this`size, this`freep, this`bs, this`live
      ensures Valid() && freep != 0
      ensures bs == Put(old(bs), Block(bp, old(live)[bp])) && live == old(live) - {bp}
    {
      FreeKeeps(base, ptr, size, freep, bs, live, core, bp);
      ghost var bs', live' := Put(bs, Block(bp, live[bp])), live - {bp};
      var p := FindPlace(bp);
      Store(p, bp);
      bs, live := bs', live';
    }

    /** sbrk answers with the address of the new units, which are not among those it gave
        before, or fails with a negative number. */
    method Morecore(nu: nat, sbrk: int) returns (ok: bool)
      requires Valid() && freep != 0 && nu > 0 && (sbrk >= 0 ==> base < sbrk && Apart(core, Block(sbrk, Core(nu))))
      modifies this
      ensures Valid() && freep != 0 && live == old(live)
      ensures ok == (sbrk >= 0)
      ensures !ok ==> bs == old(bs) && core == old(core) && freep == old(freep)
      ensures ok ==> bs == Put(old(bs), Block(sbrk, Core(nu))) && core == old(core) + [Block(sbrk, Core(nu))]
    {
      ok := sbrk >= 0;
      if ok {
        var n := Core(nu);
        GrowKeeps(base, ptr, size, freep, bs, live, core, sbrk, n);
        size := size[sbrk := n];
        live, core := live[sbrk := n], core + [Block(sbrk, n)];
        Free(sbrk);
      }
    }

    /** One round of malloc()'s search, from the header after freep back to freep. */
    method Round(n: nat) returns (found: bool, prevp: nat, p: nat, ghost i: nat)
      requires Coalesced(bs) && Above(base, bs) && n > 0
      requires Linked(ptr, size, base, bs) && OnRing(base, bs, freep)
      ensures found ==> i < |bs| && bs[i].size >= n && p == bs[i].addr && prevp == At(base, bs, i)
      ensures !found <==> AllBelow(bs, n)
    {
      ghost var f: nat :| f <= |bs| && freep == At(base, bs, f);
      ghost var r: nat := Succ(bs, f);
      RingFacts(ptr, size, base, bs, f);
      prevp, p, i := freep, ptr[freep], 0;
      while true
        invariant r <= |bs| && p == At(base, bs, r) && (r > 0 ==> prevp == At(base, bs, r - 1))
        invariant Visited(bs, f, r, n)
        decreases if r <= f then f - r else |bs| + 1 - r + f
      {
        RingFacts(ptr, size, base, bs, r);
        if size[p] >= n {
          i := r - 1;
          return true, prevp, p, i;
        }
        VisitNext(bs, f, r, n);
        if p == freep {
          AtInjective(base, bs, f, r);
          return false, prevp, p, i;
        }
        prevp, p := p, ptr[p];
        r := Succ(bs, r);
      }
    }

    /** Cutting the last n units off block i, which follows header prevp. */
    method Cut(prevp: nat, p: nat, n: nat) returns (bp: nat)
      requires prevp in ptr && p in ptr && p in size && 0 < n <= size[p]
      modifies this`ptr, this`size, this`freep
      ensures freep == prevp && bp == TakeAt(old(size), p, n)
      ensures ptr == TakePtr(old(ptr), old(size), prevp, p, n) && size == TakeSize(old(size), p, n)
    {
      bp := p;
      if size[p] == n {
        ptr := ptr[prevp := ptr[p]];
      } else {
        size := size[p := size[p] - n];
        bp := bp + size[p];
        size := size[bp := n];
      }
      freep := prevp;
    }

    /** The search of malloc(): a round of the ring, and if that finds nothing, more core
        and another round, which then cannot fail.  The source runs both in one loop. */
    method Search(n: nat, sbrk: int) returns (found: bool, prevp: nat, p: nat, ghost i: nat)
      requires Valid() && freep != 0 && n > 0 && (sbrk >= 0 ==> base < sbrk && Apart(core, Block(sbrk, Core(n))))
      modifies this
      ensures Valid() && freep != 0 && live == old(live)
      ensures found ==> i < |bs| && bs[i].size >= n && p == bs[i].addr && prevp == At(base, bs, i)
      ensures !found <==> AllBelow(old(bs), n) && sbrk < 0
      ensures core == if AllBelow(old(bs), n) && sbrk >= 0 then old(core) + [Block(sbrk, Core(n))] else old(core)
      ensures !found ==> bs == old(bs)
    {
      found, prevp, p, i := Round(n);
      if !found {
        var ok := Morecore(n, sbrk);
        if ok {
          PutMakesRoom(old(bs), Block(sbrk, Core(n)), n);
          found, prevp, p, i := Round(n);
        }
      }
    }

    /** The allocation itself, once a block is found. */
    method Allocate(prevp: nat, p: nat, n: nat, ghost i: nat) returns (bp: nat)
      requires Valid() && freep != 0 && n > 0
      requires i < |bs| && bs[i].size >= n && p == bs[i].addr && prevp == At(base, bs, i)
      modifies this`ptr, this`size, this`freep, this`bs, this`live
      ensures Valid() && freep != 0
      ensures bp !in old(live) && live == old(live)[bp := n]
    {
      ghost var bs' := TakeKeeps(base, ptr, size, freep, bs, live, core, i, n);
      bp := Cut(prevp, p, n);
      bs, live := bs', live[bp := n];
    }

    /** The ring of a single empty block, made by the first malloc(). */
    method Init()
      requires Valid() && freep == 0
      modifies this`ptr, this`size, this`freep
      ensures Valid() && freep != 0
    {
      InitKeeps(base, ptr, size, bs, live, core);
      ptr, size, freep := ptr[base := base], size[base := 0], base;
    }

    /** malloc(): 0 if no block is large enough and sbrk refuses, else the address after
        the header of a new allocation. */
    method Malloc(nbytes: nat, sbrk: int) returns (ap: nat)
      requires Valid() && nbytes + HEADER - 1 < 0x1_0000_0000 && Core(UnitsFor(nbytes)) * HEADER < 0x8000_0000
      requires sbrk >= 0 ==> base < sbrk && Apart(core, Block(sbrk, Core(UnitsFor(nbytes))))
      modifies this
      ensures Valid()
      ensures ap == 0 <==> AllBelow(old(bs), UnitsFor(nbytes)) && sbrk < 0
      ensures ap == 0 ==> live == old(live) && bs == old(bs)
      ensures ap > 0 ==> ap - 1 !in old(live) && live == old(live)[ap - 1 := UnitsFor(nbytes)]
      ensures core == old(core) +
                      if AllBelow(old(bs), UnitsFor(nbytes)) && sbrk >= 0 then [Block(sbrk, Core(UnitsFor(nbytes)))] else []
    {
      var nunits := UnitsFor(nbytes);
      if freep == 0 {
        Init();
      }
      var found, prevp, p, i := Search(nunits, sbrk);
      if !found {
        return 0;
      }
      var bp := Allocate(prevp, p, nunits, i);
      ap := bp + 1;
    }
  }

  lemma UnitsSuffice(nbytes: nat)
    ensures (UnitsFor(nbytes) - 1) * HEADER >= nbytes && UnitsFor(nbytes) >= 1
    ensures (UnitsFor(nbytes) - 1) * HEADER < nbytes + HEADER
  {
  }
}
