/**
 Page tables (vm.c) over the physical page allocator (kalloc.c).

 Physical memory is a map from frame numbers to pages of 1024 words; a page-directory or
 page-table entry is one word, address and flags together, as the x86 lays it out (Intel
 SDM volume 3A, section 4.3).  The free list runs through the first word of the free
 pages.  A `Space` is what one page directory stands for, with the owner of each frame
 it uses; `Repr` says that memory holds it.
 */
module Paging {
  import opened Common

  const PGSIZE := 4096
  const ENTRIES := 1024
  const KERNBASE := 0x8000_0000
  const UPAGES := 524288          // virtual pages below KERNBASE
  const VPAGES := 1048576         // virtual pages in all

  const PTE_P := 1
  const PTE_W := 2
  const PTE_U := 4

  type Words = seq<nat>
  type Mem = map<nat, Words>

  predicate Present(e: nat) {
    e % 2 == 1
  }

  function FrameOf(e: nat): nat {
    e / PGSIZE
  }

  function Flags(e: nat): nat {
    e % PGSIZE
  }

  /** pa | flags, for an address without offset. */
  function Entry(f: nat, flags: nat): nat {
    f * PGSIZE + flags
  }

  /** flags | PTE_P */
  function WithP(flags: nat): nat {
    if flags % 2 == 1 then flags else flags + 1
  }

  lemma EntryParts(f: nat, flags: nat)
    requires flags < PGSIZE
    ensures FrameOf(Entry(f, flags)) == f && Flags(Entry(f, flags)) == flags
    ensures Present(Entry(f, flags)) <==> flags % 2 == 1
  {
  }

  function Pdx(v: nat): nat {
    v / ENTRIES
  }

  function Ptx(v: nat): nat {
    v % ENTRIES
  }

  lemma PageIndex(v: nat, w: nat)
    requires Pdx(v) == Pdx(w) && Ptx(v) == Ptx(w)
    ensures v == w
  {
  }

  datatype Role = Dir | Table(i: nat) | Page(v: nat)

  /** `tables` maps directory indexes to page-table frames, `ptes` virtual page numbers
      to present entries, `owner` the frames this space owns to what they are for.  Pages
      mapped at or above KERNBASE are the kernel's and not owned. */
  datatype Space = Space(dir: nat, tables: map<nat, nat>, ptes: map<nat, nat>, owner: map<nat, Role>)

  /** The frames kalloc deals in: from `lo`, past the kernel image, to `hi`, PHYSTOP. */
  datatype Range = Range(lo: nat, hi: nat) {
    predicate Has(f: nat) {
      0 < lo <= f < hi
    }
  }

  ghost predicate PdeOk(mem: Mem, sp: Space, i: nat)
    requires sp.dir in mem && |mem[sp.dir]| == ENTRIES && i < ENTRIES
  {
    && (i in sp.tables <==> Present(mem[sp.dir][i]))
    && (i in sp.tables ==>
          && mem[sp.dir][i] == Entry(sp.tables[i], 7)
          && sp.tables[i] in mem && |mem[sp.tables[i]]| == ENTRIES
          && sp.tables[i] in sp.owner && sp.owner[sp.tables[i]] == Table(i))
  }

  ghost predicate PteOk(mem: Mem, sp: Space, v: nat)
    requires v < VPAGES
  {
    Pdx(v) in sp.tables ==>
      && sp.tables[Pdx(v)] in mem && |mem[sp.tables[Pdx(v)]]| == ENTRIES
      && (v in sp.ptes <==> Present(mem[sp.tables[Pdx(v)]][Ptx(v)]))
      && (v in sp.ptes ==> sp.ptes[v] == mem[sp.tables[Pdx(v)]][Ptx(v)])
  }

  ghost predicate PageOk(sp: Space, v: nat)
    requires v in sp.ptes
  {
    && v < VPAGES && Pdx(v) in sp.tables
    && (v < UPAGES ==> FrameOf(sp.ptes[v]) in sp.owner && sp.owner[FrameOf(sp.ptes[v])] == Page(v))
  }

  ghost predicate OwnerOk(r: Range, mem: Mem, sp: Space, f: nat)
    requires f in sp.owner
  {
    && r.Has(f) && f in mem && |mem[f]| == ENTRIES
    && match sp.owner[f]
       case Dir => f == sp.dir
       case Table(i) => i in sp.tables && sp.tables[i] == f
       case Page(v) => v in sp.ptes && v < UPAGES && FrameOf(sp.ptes[v]) == f
  }

  ghost predicate Repr(r: Range, mem: Mem, sp: Space) {
    && sp.dir in mem && |mem[sp.dir]| == ENTRIES
    && sp.dir in sp.owner && sp.owner[sp.dir] == Dir
    && (forall i :: i in sp.tables ==> i < ENTRIES)
    && (forall i :: 0 <= i < ENTRIES ==> PdeOk(mem, sp, i))
    && (forall v :: 0 <= v < VPAGES ==> PteOk(mem, sp, v))
    && (forall v {:trigger PageOk(sp, v)} :: v in sp.ptes ==> PageOk(sp, v))
    && (forall f {:trigger OwnerOk(r, mem, sp, f)} :: f in sp.owner ==> OwnerOk(r, mem, sp, f))
  }

  // ----- what a store does to a space --------------------------------------

  /** A space reads only the frames it owns. */
  lemma ReprFrame(r: Range, mem: Mem, mem': Mem, sp: Space)
    requires Repr(r, mem, sp)
    requires forall f :: f in sp.owner && f in mem ==> f in mem' && mem'[f] == mem[f]
    ensures Repr(r, mem', sp)
  {
    forall i | 0 <= i < ENTRIES ensures PdeOk(mem', sp, i) {
      assert PdeOk(mem, sp, i);
    }
    forall v | 0 <= v < VPAGES ensures PteOk(mem', sp, v) {
      assert PteOk(mem, sp, v);
      if Pdx(v) in sp.tables { assert PdeOk(mem, sp, Pdx(v)); }
    }
    forall f | f in sp.owner ensures OwnerOk(r, mem', sp, f) {
      assert OwnerOk(r, mem, sp, f);
    }
  }

  function Zeros(): Words {
    seq(ENTRIES, _ => 0)
  }

  function Put(w: Words, i: nat, e: nat): Words
    requires i < |w|
  {
    w[i := e]
  }

  function WithTable(sp: Space, i: nat, t: nat): Space {
    sp.(tables := sp.tables[i := t], owner := sp.owner[t := Table(i)])
  }

  function StoreTable(mem: Mem, d: nat, i: nat, t: nat): Mem
    requires d in mem && i < |mem[d]|
  {
    mem[t := Zeros()][d := Put(mem[d], i, Entry(t, 7))]
  }

  lemma AddTable(r: Range, mem: Mem, sp: Space, i: nat, t: nat)
    requires Repr(r, mem, sp) && i < ENTRIES && i !in sp.tables && t !in sp.owner && r.Has(t)
    ensures Repr(r, StoreTable(mem, sp.dir, i, t), WithTable(sp, i, t))
  {
    var mem', sp' := StoreTable(mem, sp.dir, i, t), WithTable(sp, i, t);
    forall k | 0 <= k < ENTRIES ensures PdeOk(mem', sp', k) {
      assert PdeOk(mem, sp, k);
    }
    forall v | 0 <= v < VPAGES ensures PteOk(mem', sp', v) {
      assert PteOk(mem, sp, v);
      if Pdx(v) in sp.tables { assert PdeOk(mem, sp, Pdx(v)); }
      if v in sp.ptes { assert PageOk(sp, v); }
    }
    forall f | f in sp'.owner ensures OwnerOk(r, mem', sp', f) {
      if f in sp.owner { assert OwnerOk(r, mem, sp, f); }
    }
    forall v | v in sp'.ptes ensures PageOk(sp', v) {
      assert PageOk(sp, v);
    }
  }

  function WithPte(sp: Space, v: nat, f: nat, flags: nat): Space {
    sp.(ptes := sp.ptes[v := Entry(f, flags)], owner := if v < UPAGES then sp.owner[f := Page(v)] else sp.owner)
  }

  function StorePte(mem: Mem, t: nat, j: nat, e: nat): Mem
    requires t in mem && j < |mem[t]|
  {
    mem[t := Put(mem[t], j, e)]
  }

  lemma SetPte(r: Range, mem: Mem, sp: Space, v: nat, f: nat, flags: nat)
    requires Repr(r, mem, sp) && v < VPAGES && Pdx(v) in sp.tables && v !in sp.ptes
    requires flags < PGSIZE && flags % 2 == 1
    requires v < UPAGES ==> f !in sp.owner && r.Has(f) && f in mem && |mem[f]| == ENTRIES
    ensures sp.tables[Pdx(v)] in mem && Ptx(v) < |mem[sp.tables[Pdx(v)]]|
    ensures Repr(r, StorePte(mem, sp.tables[Pdx(v)], Ptx(v), Entry(f, flags)), WithPte(sp, v, f, flags))
  {
    EntryParts(f, flags);
    assert PdeOk(mem, sp, Pdx(v));
    var t := sp.tables[Pdx(v)];
    var mem', sp' := StorePte(mem, t, Ptx(v), Entry(f, flags)), WithPte(sp, v, f, flags);
    forall k | 0 <= k < ENTRIES ensures PdeOk(mem', sp', k) {
      assert PdeOk(mem, sp, k);
    }
    forall w | 0 <= w < VPAGES ensures PteOk(mem', sp', w) {
      assert PteOk(mem, sp, w);
      if Pdx(w) in sp.tables {
        assert PdeOk(mem, sp, Pdx(w));
        if Pdx(w) == Pdx(v) && Ptx(w) == Ptx(v) { PageIndex(v, w); }
      }
    }
    forall g | g in sp'.owner ensures OwnerOk(r, mem', sp', g) {
      if g in sp.owner { assert OwnerOk(r, mem, sp, g); }
    }
    forall w | w in sp'.ptes ensures PageOk(sp', w) {
      if w != v { assert PageOk(sp, w); }
    }
  }

  function WithoutPte(sp: Space, v: nat): Space
    requires v in sp.ptes
  {
    sp.(ptes := sp.ptes - {v}, owner := sp.owner - {FrameOf(sp.ptes[v])})
  }

  lemma ClearPte(r: Range, mem: Mem, sp: Space, v: nat)
    requires Repr(r, mem, sp) && v in sp.ptes && v < UPAGES
    ensures Pdx(v) in sp.tables && sp.tables[Pdx(v)] in mem && Ptx(v) < |mem[sp.tables[Pdx(v)]]|
    ensures Repr(r, StorePte(mem, sp.tables[Pdx(v)], Ptx(v), 0), WithoutPte(sp, v))
  {
    assert PageOk(sp, v);
    assert PdeOk(mem, sp, Pdx(v));
    var t := sp.tables[Pdx(v)];
    var mem', sp' := StorePte(mem, t, Ptx(v), 0), WithoutPte(sp, v);
    assert OwnerOk(r, mem, sp, FrameOf(sp.ptes[v]));
    forall k | 0 <= k < ENTRIES ensures PdeOk(mem', sp', k) {
      assert PdeOk(mem, sp, k);
    }
    forall w | 0 <= w < VPAGES ensures PteOk(mem', sp', w) {
      assert PteOk(mem, sp, w);
      if Pdx(w) in sp.tables {
        assert PdeOk(mem, sp, Pdx(w));
        if Pdx(w) == Pdx(v) && Ptx(w) == Ptx(v) { PageIndex(v, w); }
      }
    }
    forall f | f in sp'.owner ensures OwnerOk(r, mem', sp', f) {
      assert OwnerOk(r, mem, sp, f);
    }
    forall w | w in sp'.ptes ensures PageOk(sp', w) {
      assert PageOk(sp, w);
    }
  }

  // ----- the free list -----------------------------------------------------

  /** P2V: the kernel's address of a frame. */
  function Ka(f: nat): nat {
    KERNBASE + f * PGSIZE
  }

  function Link(free: seq<nat>, i: nat): nat {
    if i < |free| then Ka(free[i]) else 0
  }

  ghost predicate NodeOk(r: Range, mem: Mem, free: seq<nat>, i: nat)
    requires i < |free|
  {
    && r.Has(free[i]) && free[i] in mem && |mem[free[i]]| == ENTRIES
    && mem[free[i]][0] == Link(free, i + 1)
  }

  /** All frames of the range exist; the list `free` starts at address head and runs
      through the first words of its pages. */
  ghost predicate FreeOk(r: Range, mem: Mem, head: nat, free: seq<nat>) {
    && (forall f :: r.Has(f) ==> f in mem && |mem[f]| == ENTRIES)
    && Distinct(free)
    && head == Link(free, 0)
    && (forall i {:trigger NodeOk(r, mem, free, i)} :: 0 <= i < |free| ==> NodeOk(r, mem, free, i))
  }

  lemma FreeFrame(r: Range, mem: Mem, mem': Mem, head: nat, free: seq<nat>)
    requires FreeOk(r, mem, head, free)
    requires forall f :: r.Has(f) ==> f in mem' && |mem'[f]| == ENTRIES
    requires forall f :: f in free && f in mem ==> f in mem' && mem'[f] == mem[f]
    ensures FreeOk(r, mem', head, free)
  {
    forall i | 0 <= i < |free| ensures NodeOk(r, mem', free, i) {
      assert NodeOk(r, mem, free, i);
    }
  }

  lemma FreeHas(r: Range, mem: Mem, head: nat, free: seq<nat>, f: nat)
    requires FreeOk(r, mem, head, free) && f in free
    ensures r.Has(f)
  {
    var i :| 0 <= i < |free| && free[i] == f;
    assert NodeOk(r, mem, free, i);
  }

  ghost predicate Sep(free: seq<nat>, sp: Space) {
    forall f :: f in sp.owner ==> f !in free
  }

  /** The word kfree fills a page with, and the page it leaves on the list. */
  function Junk(next: nat): Words {
    [next] + seq(ENTRIES - 1, _ => 0x0101_0101)
  }

  lemma FreePush(r: Range, mem: Mem, head: nat, free: seq<nat>, f: nat)
    requires FreeOk(r, mem, head, free) && r.Has(f) && f !in free
    ensures FreeOk(r, mem[f := Junk(head)], Ka(f), [f] + free)
  {
    var free', mem' := [f] + free, mem[f := Junk(head)];
    forall i | 0 <= i < |free'| ensures NodeOk(r, mem', free', i) {
      if i > 0 {
        assert NodeOk(r, mem, free, i - 1);
        assert Link(free', i + 1) == Link(free, i);
      }
    }
  }

  lemma FreePop(r: Range, mem: Mem, head: nat, free: seq<nat>)
    requires FreeOk(r, mem, head, free) && free != []
    ensures r.Has(free[0]) && free[0] in mem && |mem[free[0]]| == ENTRIES
    ensures FreeOk(r, mem, mem[free[0]][0], free[1..]) && free[0] !in free[1..]
  {
    var free' := free[1..];
    assert NodeOk(r, mem, free, 0);
    forall i | 0 <= i < |free'| ensures NodeOk(r, mem, free', i) {
      assert NodeOk(r, mem, free, i + 1);
      assert Link(free', i + 1) == Link(free, i + 2);
    }
  }

  /** The frames a space and the free list have between them. */
  ghost function Pool(free: seq<nat>, sp: Space): set<nat> {
    Listed(free) + sp.owner.Keys
  }

  ghost function Listed(free: seq<nat>): set<nat> {
    set f | f in free
  }

  /** Nothing changes but free pages and the tables of sp: no user page, no other space. */
  ghost predicate Untouched(mem: Mem, mem': Mem, free: seq<nat>, sp: Space) {
    forall f :: f in mem && f !in free && (f in sp.owner ==> sp.owner[f].Page?) ==> f in mem' && mem'[f] == mem[f]
  }

  /** Pages and tables only come: sp' has the tables of sp, and more. */
  ghost predicate Extends(sp: Space, sp': Space) {
    && sp'.dir == sp.dir
    && (forall i :: i in sp.tables ==> i in sp'.tables && sp'.tables[i] == sp.tables[i])
    && (forall f :: f in sp.owner ==> f in sp'.owner && sp'.owner[f] == sp.owner[f])
  }

  /** ptes' is ptes with n pages from virtual page v0 on mapped to consecutive frames
      from f0 on. */
  ghost predicate MapsRange(ptes: map<nat, nat>, ptes': map<nat, nat>, v0: nat, n: nat, f0: nat, flags: nat) {
    && (forall v :: v in ptes' <==> v in ptes || v0 <= v < v0 + n)
    && (forall v :: v0 <= v < v0 + n ==> ptes'[v] == Entry(f0 + (v - v0), flags))
    && (forall v :: v in ptes && !(v0 <= v < v0 + n) ==> ptes'[v] == ptes[v])
  }

  /** How many page tables are absent from directory indexes i to k. */
  ghost function Missing(tables: map<nat, nat>, i: nat, k: nat): nat
    decreases k - i
  {
    if i >= k then 0 else (if i in tables then 0 else 1) + Missing(tables, i + 1, k)
  }

  lemma {:induction false} MissingBelow(tables: map<nat, nat>, i: nat, k: nat, x: nat, t: nat)
    requires x < i
    ensures Missing(tables[x := t], i, k) == Missing(tables, i, k)
    decreases k - i
  {
    if i < k { MissingBelow(tables, i + 1, k, x, t); }
  }

  lemma {:induction false} MissingAdd(tables: map<nat, nat>, i: nat, k: nat, x: nat, t: nat)
    requires i <= x < k && x !in tables
    ensures Missing(tables[x := t], i, k) + 1 == Missing(tables, i, k)
    decreases k - i
  {
    if i == x { MissingBelow(tables, i + 1, k, x, t); } else { MissingAdd(tables, i + 1, k, x, t); }
  }

  lemma {:induction false} MissingNone(tables: map<nat, nat>, i: nat, k: nat)
    requires forall x :: i <= x < k ==> x in tables
    ensures Missing(tables, i, k) == 0
    decreases k - i
  {
    if i < k { MissingNone(tables, i + 1, k); }
  }

  /** The free frames left when the tables absent between indexes i and k are made. */
  ghost function Slack(free: seq<nat>, sp: Space, w: Window): int {
    |free| - Missing(sp.tables, w.i, w.k)
  }

  datatype Window = Window(i: nat, k: nat) {
    predicate Has(x: nat) {
      i <= x < k
    }
  }

  /** The table for directory index x was there, or costs a frame. */
  ghost predicate Paid(free: seq<nat>, sp: Space, free': seq<nat>, sp': Space, x: nat) {
    || (free' == free && sp'.tables == sp.tables)
    || (x !in sp.tables && free != [] && free' == free[1..] && sp'.tables == sp.tables[x := free[0]])
  }

  /** The tables that came are in the window. */
  ghost predicate Inside(sp: Space, sp': Space, w: Window) {
    forall x :: x in sp'.tables ==> x in sp.tables || w.Has(x)
  }

  lemma PaidKeepsSlack(free: seq<nat>, sp: Space, free': seq<nat>, sp': Space, x: nat, w: Window)
    requires Paid(free, sp, free', sp', x) && w.Has(x)
    ensures Slack(free', sp', w) == Slack(free, sp, w) && Inside(sp, sp', w)
  {
    if sp'.tables != sp.tables {
      MissingAdd(sp.tables, w.i, w.k, x, free[0]);
    }
  }

  function RoundDown(a: nat): nat {
    a - a % PGSIZE
  }

  function RoundUp(a: nat): nat {
    RoundDown(a + PGSIZE - 1)
  }

  /** The last virtual page of a mapping of size bytes at va, in 32-bit arithmetic. */
  function LastPage(va: nat, size: nat): nat
    requires size > 0
  {
    (va + size - 1) % WORD / PGSIZE
  }

  /** A mapping may be made: no page of it is mapped, and those of the user's part get frames
      that nobody has. */
  ghost predicate Mappable(r: Range, free: seq<nat>, sp: Space, v0: nat, last: nat, f0: nat) {
    && v0 <= last < VPAGES
    && (forall v :: v0 <= v <= last ==> v !in sp.ptes)
    && (forall v {:trigger Unowned(r, free, sp, v0, f0, v)} :: v0 <= v <= last && v < UPAGES ==> Unowned(r, free, sp, v0, f0, v))
  }

  ghost predicate Unowned(r: Range, free: seq<nat>, sp: Space, v0: nat, f0: nat, v: nat)
    requires v0 <= v
  {
    r.Has(f0 + (v - v0)) && f0 + (v - v0) !in Pool(free, sp)
  }

  /** Besides what there was, only user pages have come. */
  ghost predicate OnlyPages(free0: seq<nat>, sp0: Space, free: seq<nat>, sp: Space) {
    forall f :: f in Pool(free, sp) ==> f in Pool(free0, sp0) || (f in sp.owner && sp.owner[f].Page?)
  }

  ghost predicate Fresh(r: Range, free: seq<nat>, sp: Space, v: nat, f: nat) {
    v < VPAGES && v !in sp.ptes && (v < UPAGES ==> r.Has(f) && f !in Pool(free, sp))
  }

  /** A consistent state, reached from (mem0, free0, sp0) by adding tables and entries. */
  ghost predicate Grown(r: Range, mem0: Mem, free0: seq<nat>, sp0: Space, mem: Mem, head: nat, free: seq<nat>,
                        sp: Space) {
    && FreeOk(r, mem, head, free) && Repr(r, mem, sp) && Sep(free, sp)
    && Extends(sp0, sp) && Untouched(mem0, mem, free0, sp0)
  }

  /** Storing a fresh entry, in a state grown from (mem0, free0, sp0). */
  lemma MapStep(
    r: Range, mem0: Mem, free0: seq<nat>, sp0: Space, mem: Mem, head: nat, free: seq<nat>, sp: Space,
    v: nat, f: nat, flags: nat)
    requires Grown(r, mem0, free0, sp0, mem, head, free, sp) && OnlyPages(free0, sp0, free, sp)
    requires Fresh(r, free, sp, v, f) && flags < PGSIZE && flags % 2 == 1 && Pdx(v) in sp.tables
    ensures
      var t := sp.tables[Pdx(v)];
      && t in mem && Ptx(v) < |mem[t]|
      && Grown(r, mem0, free0, sp0, StorePte(mem, t, Ptx(v), Entry(f, flags)), head, free, WithPte(sp, v, f, flags))
      && Pool(free, WithPte(sp, v, f, flags)) == Pool(free, sp) + if v < UPAGES then {f} else {}
  {
    var t := sp.tables[Pdx(v)];
    assert PdeOk(mem, sp, Pdx(v));
    SetPte(r, mem, sp, v, f, flags);
    var mem' := StorePte(mem, t, Ptx(v), Entry(f, flags));
    FreeFrame(r, mem, mem', head, free);
    assert t in Pool(free, sp);
    assert t in free0 || (t in sp0.owner && sp0.owner[t] == Table(Pdx(v)));
    assert Untouched(mem0, mem', free0, sp0);
  }

  lemma UntouchedTrans(mem0: Mem, free0: seq<nat>, sp0: Space, mem1: Mem, free1: seq<nat>, sp1: Space, mem2: Mem)
    requires Untouched(mem0, mem1, free0, sp0) && Untouched(mem1, mem2, free1, sp1)
    requires Extends(sp0, sp1) && Sep(free1, sp1) && OnlyPages(free0, sp0, free1, sp1)
    ensures Untouched(mem0, mem2, free0, sp0)
  {
    forall f | f in mem0 && f !in free0 && (f in sp0.owner ==> sp0.owner[f].Page?)
      ensures f in mem2 && mem2[f] == mem0[f]
    {
      assert f in Pool(free1, sp1) ==> f in Pool(free0, sp0) || (f in sp1.owner && sp1.owner[f].Page?);
    }
  }

  lemma MapArith(va: nat, size: nat)
    requires va < WORD && size > 0
    ensures RoundDown(va) == va / PGSIZE * PGSIZE
    ensures RoundDown((va + size - 1) % WORD) == LastPage(va, size) * PGSIZE
  {
  }

  /** The virtual page of a page-aligned address: PDX and PTX together. */
  method PageNumber(a: nat, ghost v: nat) returns (n: nat)
    requires a == v * PGSIZE
    ensures n == v
  {
    n := a / PGSIZE;
  }

  /** A mapping in progress: what mappages is asked for, and where it started. */
  datatype Job = Job(mem: Mem, free: seq<nat>, sp: Space, v0: nat, v1: nat, f0: nat, flags: nat, w: Window) {
    ghost predicate Valid(r: Range) {
      && Mappable(r, free, sp, v0, v1, f0) && flags < PGSIZE && flags % 2 == 1
      && w.Has(Pdx(v0)) && w.Has(Pdx(v1))
    }
  }

  /** n pages of it are done. */
  ghost predicate Mapped(r: Range, j: Job, mem: Mem, head: nat, free: seq<nat>, sp: Space, n: nat) {
    && Grown(r, j.mem, j.free, j.sp, mem, head, free, sp)
    && MapsRange(j.sp.ptes, sp.ptes, j.v0, n, j.f0, j.flags)
    && Pool(free, sp) == Pool(j.free, j.sp) + Taken(j.v0, j.f0, n) && OnlyPages(j.free, j.sp, free, sp)
    && Slack(free, sp, j.w) == Slack(j.free, j.sp, j.w) && Inside(j.sp, sp, j.w)
  }

  /** The frames that n pages from v0 on take for the user: those from f0 on. */
  ghost function Taken(v0: nat, f0: nat, n: nat): set<nat> {
    if n == 0 then {} else Taken(v0, f0, n - 1) + if v0 + n - 1 < UPAGES then {f0 + n - 1} else {}
  }

  lemma {:induction false} TakenBelow(v0: nat, f0: nat, n: nat, f: nat)
    requires f in Taken(v0, f0, n)
    ensures f0 <= f < f0 + n && v0 + (f - f0) < UPAGES
  {
    if f in Taken(v0, f0, n - 1) { TakenBelow(v0, f0, n - 1, f); }
  }

  /** None for the kernel, one for one page. */
  lemma {:induction false} TakenKernel(v0: nat, f0: nat, n: nat)
    requires v0 >= UPAGES
    ensures Taken(v0, f0, n) == {}
  {
    if n > 0 { TakenKernel(v0, f0, n - 1); }
  }

  lemma TakenOne(v0: nat, f0: nat, n: nat)
    requires n <= 1 && v0 < UPAGES
    ensures Taken(v0, f0, n) == if n == 1 then {f0} else {}
  {
    if n == 1 { assert Taken(v0, f0, n - 1) == {}; }
  }

  /** What stopped it there: no frame is left for the next page table. */
  ghost predicate Short(j: Job, free: seq<nat>, sp: Space, n: nat) {
    free == [] && Pdx(j.v0 + n) !in sp.tables
  }

  lemma MappableNext(r: Range, j: Job, free: seq<nat>, sp: Space, n: nat, v: nat, f: nat)
    requires j.Valid(r) && MapsRange(j.sp.ptes, sp.ptes, j.v0, n, j.f0, j.flags)
    requires Pool(free, sp) == Pool(j.free, j.sp) + Taken(j.v0, j.f0, n)
    requires n <= j.v1 - j.v0 && v == j.v0 + n && f == j.f0 + n
    ensures Fresh(r, free, sp, v, f) && j.w.Has(Pdx(v))
  {
    if v < UPAGES {
      assert Unowned(r, j.free, j.sp, j.v0, j.f0, v);
      if f in Taken(j.v0, j.f0, n) { TakenBelow(j.v0, j.f0, n, f); }
    }
  }

  lemma MappedNext(
    r: Range, j: Job, mem: Mem, head: nat, free: seq<nat>, sp: Space, n: nat, ptes: map<nat, nat>, v: nat, f: nat)
    requires j.Valid(r) && MapsRange(j.sp.ptes, ptes, j.v0, n, j.f0, j.flags)
    requires n <= j.v1 - j.v0 && v == j.v0 + n && f == j.f0 + n
    requires sp.ptes == ptes[v := Entry(f, j.flags)]
    requires Pool(free, sp) == Pool(j.free, j.sp) + Taken(j.v0, j.f0, n) + if v < UPAGES then {f} else {}
    ensures MapsRange(j.sp.ptes, sp.ptes, j.v0, n + 1, j.f0, j.flags)
    ensures Pool(free, sp) == Pool(j.free, j.sp) + Taken(j.v0, j.f0, n + 1)
  {
  }

  // ----- giving pages back -------------------------------------------------

  /** The number of pages that sz bytes from address 0 on take. */
  function Pages(sz: nat): nat {
    (sz + PGSIZE - 1) / PGSIZE
  }

  lemma PagesCover(sz: nat)
    ensures RoundUp(sz) == Pages(sz) * PGSIZE
    ensures sz <= Pages(sz) * PGSIZE < sz + PGSIZE
    ensures sz <= KERNBASE ==> Pages(sz) <= UPAGES
  {
  }

  /** What a loop that goes page by page from lo to hi, giving back every page there is,
      puts on the free list. */
  ghost function Freed(ptes: map<nat, nat>, lo: nat, hi: nat): seq<nat>
    decreases hi
  {
    if hi <= lo then []
    else if hi - 1 in ptes then [FrameOf(ptes[hi - 1])] + Freed(ptes, lo, hi - 1)
    else Freed(ptes, lo, hi - 1)
  }

  lemma {:induction false} FreedGap(ptes: map<nat, nat>, lo: nat, mid: nat, hi: nat)
    requires lo <= mid <= hi && forall v :: mid <= v < hi ==> v !in ptes
    ensures Freed(ptes, lo, hi) == Freed(ptes, lo, mid)
    decreases hi
  {
    if mid < hi {
      FreedGap(ptes, lo, mid, hi - 1);
    }
  }

  /** sp' is sp without its pages from lo to hi. */
  ghost predicate Dropped(sp: Space, sp': Space, lo: nat, hi: nat) {
    && sp'.dir == sp.dir && sp'.tables == sp.tables
    && (forall v :: v in sp'.ptes <==> v in sp.ptes && !(lo <= v < hi))
    && (forall v :: v in sp'.ptes ==> sp'.ptes[v] == sp.ptes[v])
    && (forall f :: f in sp'.owner ==> f in sp.owner && sp'.owner[f] == sp.owner[f])
  }

  /** The pages that stay keep their bytes, and so does everything outside. */
  ghost predicate Kept(mem: Mem, mem': Mem, free: seq<nat>, sp: Space, sp': Space) {
    forall f :: f in mem && f !in free && (f in sp.owner ==> sp.owner[f].Page? && f in sp'.owner)
      ==> f in mem' && mem'[f] == mem[f]
  }

  /** Where pages are being given back: a consistent state that reached page n, from lo. */
  datatype Drop = Drop(mem: Mem, free: seq<nat>, sp: Space, lo: nat)

  ghost predicate Dropping(r: Range, j: Drop, mem: Mem, head: nat, free: seq<nat>, sp: Space, n: nat) {
    && FreeOk(r, mem, head, free) && Repr(r, mem, sp) && Sep(free, sp)
    && DroppedTo(j, mem, free, sp, n)
  }

  ghost predicate DroppedTo(j: Drop, mem: Mem, free: seq<nat>, sp: Space, n: nat) {
    && Dropped(j.sp, sp, j.lo, n) && free == Freed(j.sp.ptes, j.lo, n) + j.free
    && Kept(j.mem, mem, j.free, j.sp, sp) && Pool(free, sp) == Pool(j.free, j.sp)
  }

  /** kfree and clearing the entry, together. */
  function StoreDrop(mem: Mem, head: nat, f: nat, t: nat, i: nat): Mem
    requires t in mem && i < |mem[t]| && t != f
  {
    StorePte(mem[f := Junk(head)], t, i, 0)
  }

  lemma DropPage(r: Range, mem: Mem, head: nat, free: seq<nat>, sp: Space, v: nat, f: nat, t: nat)
    requires FreeOk(r, mem, head, free) && Repr(r, mem, sp) && Sep(free, sp)
    requires v in sp.ptes && v < UPAGES && f == FrameOf(sp.ptes[v]) && Pdx(v) in sp.tables && t == sp.tables[Pdx(v)]
    ensures t in mem && Ptx(v) < |mem[t]| && t != f && f in sp.owner
    ensures
      var mem' := StoreDrop(mem, head, f, t, Ptx(v));
      && FreeOk(r, mem', Ka(f), [f] + free) && Repr(r, mem', WithoutPte(sp, v)) && Sep([f] + free, WithoutPte(sp, v))
      && Pool([f] + free, WithoutPte(sp, v)) == Pool(free, sp)
  {
    ClearPte(r, mem, sp, v);
    assert PdeOk(mem, sp, Pdx(v)) && PageOk(sp, v) && OwnerOk(r, mem, sp, f) && OwnerOk(r, mem, sp, t);
    var mem1, mem' := StorePte(mem, t, Ptx(v), 0), StoreDrop(mem, head, f, t, Ptx(v));
    ReprFrame(r, mem1, mem', WithoutPte(sp, v));
    FreePush(r, mem, head, free, f);
    FreeFrame(r, mem[f := Junk(head)], mem', Ka(f), [f] + free);
  }

  lemma DropStep(j: Drop, mem: Mem, free: seq<nat>, sp: Space, v: nat, f: nat, t: nat, mem': Mem)
    requires DroppedTo(j, mem, free, sp, v) && j.lo <= v
    requires v in sp.ptes && f == FrameOf(sp.ptes[v]) && f in sp.owner && t in sp.owner && sp.owner[t].Table?
    requires Pool([f] + free, WithoutPte(sp, v)) == Pool(free, sp)
    requires forall g :: g in mem && g != f && g != t ==> g in mem' && mem'[g] == mem[g]
    ensures DroppedTo(j, mem', [f] + free, WithoutPte(sp, v), v + 1)
  {
    assert [f] + free == [f] + Freed(j.sp.ptes, j.lo, v) + j.free;
  }

  lemma DropNext(r: Range, j: Drop, mem: Mem, head: nat, free: seq<nat>, sp: Space, v: nat, f: nat, t: nat)
    requires Dropping(r, j, mem, head, free, sp, v) && j.lo <= v
    requires v in sp.ptes && v < UPAGES && f == FrameOf(sp.ptes[v]) && Pdx(v) in sp.tables && t == sp.tables[Pdx(v)]
    ensures t in mem && Ptx(v) < |mem[t]| && t != f && f in sp.owner && r.Has(f)
    ensures Dropping(r, j, StoreDrop(mem, head, f, t, Ptx(v)), Ka(f), [f] + free, WithoutPte(sp, v), v + 1)
  {
    assert PdeOk(mem, sp, Pdx(v)) && PageOk(sp, v) && OwnerOk(r, mem, sp, f);
    DropPage(r, mem, head, free, sp, v, f, t);
    DropStep(j, mem, free, sp, v, f, t, StoreDrop(mem, head, f, t, Ptx(v)));
  }

  /** The jump over an absent page table: there is no page under it. */
  lemma DropSkip(j: Drop, mem: Mem, free: seq<nat>, sp: Space, n: nat, m: nat)
    requires DroppedTo(j, mem, free, sp, n) && j.lo <= n <= m
    requires forall v :: n <= v < m ==> v !in sp.ptes
    ensures DroppedTo(j, mem, free, sp, m)
  {
    FreedGap(j.sp.ptes, j.lo, n, m);
  }

  lemma DropNone(j: Drop, mem: Mem, free: seq<nat>, sp: Space, v: nat)
    requires DroppedTo(j, mem, free, sp, v) && j.lo <= v && v !in sp.ptes
    ensures DroppedTo(j, mem, free, sp, v + 1)
  {
    DropSkip(j, mem, free, sp, v, v + 1);
  }

  /** The first page of the next page table. */
  function Beyond(v: nat): nat {
    (Pdx(v) + 1) * ENTRIES
  }

  lemma AbsentTable(r: Range, mem: Mem, sp: Space, v: nat)
    requires Repr(r, mem, sp) && v < UPAGES && Pdx(v) !in sp.tables
    ensures v < Beyond(v) <= UPAGES
    ensures forall w :: v <= w < Beyond(v) ==> w !in sp.ptes
  {
    forall w | v <= w < Beyond(v) ensures w !in sp.ptes {
      assert Pdx(w) == Pdx(v);
      assert w in sp.ptes ==> PageOk(sp, w);
    }
  }

  function Least(a: nat, b: nat): nat {
    if a < b then a else b
  }

  lemma DropJump(r: Range, j: Drop, mem: Mem, head: nat, free: seq<nat>, sp: Space, v: nat, hi: nat)
    requires Dropping(r, j, mem, head, free, sp, v) && Pdx(v) !in sp.tables && j.lo <= v < hi <= UPAGES
    ensures v < Beyond(v) <= UPAGES && DroppedTo(j, mem, free, sp, Least(Beyond(v), hi))
  {
    AbsentTable(r, mem, sp, v);
    DropSkip(j, mem, free, sp, v, Least(Beyond(v), hi));
  }

  // ----- taking pages ------------------------------------------------------

  lemma OnePage(a: nat, v: nat, f: nat)
    requires a == v * PGSIZE && v < UPAGES
    ensures a / PGSIZE == v && LastPage(a, PGSIZE) == v && f * PGSIZE % PGSIZE == 0 && f * PGSIZE / PGSIZE == f
  {
  }

  lemma OneMapped(ptes: map<nat, nat>, ptes': map<nat, nat>, v: nat, n: nat, f: nat, flags: nat)
    requires MapsRange(ptes, ptes', v, n, f, flags) && n <= 1
    ensures ptes' == if n == 1 then ptes[v := Entry(f, flags)] else ptes
  {
  }

  /** A page off the list, filled: still a consistent state, with one frame in hand. */
  lemma TakeFrame(r: Range, mem0: Mem, free0: seq<nat>, sp0: Space, mem: Mem, head: nat, free: seq<nat>, sp: Space,
                  f: nat, free1: seq<nat>, head1: nat, w: Words)
    requires Grown(r, mem0, free0, sp0, mem, head, free, sp) && Pool(free, sp) == Pool(free0, sp0)
    requires free == [f] + free1 && f !in free1 && FreeOk(r, mem, head1, free1) && |w| == ENTRIES
    ensures Grown(r, mem0, free0, sp0, mem[f := w], head1, free1, sp)
    ensures r.Has(f) && f !in Pool(free1, sp) && Pool(free1, sp) + {f} == Pool(free0, sp0)
    ensures Untouched(mem, mem[f := w], free, sp)
  {
    assert f == free[0];
    FreeHas(r, mem, head, free, f);
    FreeFrame(r, mem, mem[f := w], head1, free1);
    ReprFrame(r, mem, mem[f := w], sp);
    UntouchedTrans(mem0, free0, sp0, mem, free, sp, mem[f := w]);
  }

  lemma ExtendsTrans(sp0: Space, sp1: Space, sp2: Space)
    requires Extends(sp0, sp1) && Extends(sp1, sp2)
    ensures Extends(sp0, sp2)
  {
  }

  lemma GrownTrans(r: Range, mem0: Mem, free0: seq<nat>, sp0: Space, mem1: Mem, head1: nat, free1: seq<nat>, sp1: Space,
                   mem2: Mem, head2: nat, free2: seq<nat>, sp2: Space)
    requires Grown(r, mem0, free0, sp0, mem1, head1, free1, sp1) && Grown(r, mem1, free1, sp1, mem2, head2, free2, sp2)
    requires Pool(free1, sp1) <= Pool(free0, sp0)
    ensures Grown(r, mem0, free0, sp0, mem2, head2, free2, sp2)
  {
    UntouchedTrans(mem0, free0, sp0, mem1, free1, sp1, mem2);
    ExtendsTrans(sp0, sp1, sp2);
  }

  ghost predicate ZeroPage(mem: Mem, e: nat) {
    Flags(e) == PTE_P + PTE_W + PTE_U && FrameOf(e) in mem && mem[FrameOf(e)] == Zeros()
  }

  /** ptes' is ptes with fresh zeroed user pages from virtual page lo to hi. */
  ghost predicate Filled(mem: Mem, ptes: map<nat, nat>, ptes': map<nat, nat>, lo: nat, hi: nat) {
    && (forall v :: v in ptes' <==> v in ptes || lo <= v < hi)
    && (forall v :: v in ptes && !(lo <= v < hi) ==> ptes'[v] == ptes[v])
    && (forall v :: lo <= v < hi ==> ZeroPage(mem, ptes'[v]))
  }

  /** A space being grown from page lo on, up to page n so far. */
  datatype Grow = Grow(mem: Mem, free: seq<nat>, sp: Space, lo: nat, hi: nat) {
    ghost function Tables(): Window {
      Window(Pdx(lo), if lo < hi then Pdx(hi - 1) + 1 else Pdx(lo))
    }

    /** The frames it takes: the pages, and the page tables that are not there. */
    ghost function Cost(): nat {
      (if lo < hi then hi - lo else 0) + Missing(sp.tables, Tables().i, Tables().k)
    }

    ghost predicate Valid(r: Range) {
      lo <= hi <= UPAGES && Repr(r, mem, sp) && forall v :: lo <= v < hi ==> v !in sp.ptes
    }
  }

  ghost predicate Growing(r: Range, j: Grow, mem: Mem, head: nat, free: seq<nat>, sp: Space, n: nat) {
    && Grown(r, j.mem, j.free, j.sp, mem, head, free, sp) && Pool(free, sp) == Pool(j.free, j.sp)
    && Filled(mem, j.sp.ptes, sp.ptes, j.lo, n)
    && Slack(free, sp, j.Tables()) + (n - j.lo) == Slack(j.free, j.sp, j.Tables())
  }

  lemma FilledNext(r: Range, mem: Mem, free: seq<nat>, sp: Space, mem': Mem, ptes0: map<nat, nat>, ptes': map<nat, nat>,
                   lo: nat, n: nat, f: nat)
    requires Repr(r, mem, sp) && Sep(free, sp) && Untouched(mem, mem', free, sp)
    requires Filled(mem, ptes0, sp.ptes, lo, n) && lo <= n < UPAGES
    requires ptes' == sp.ptes[n := Entry(f, 7)] && f in mem' && mem'[f] == Zeros()
    ensures Filled(mem', ptes0, ptes', lo, n + 1)
  {
    EntryParts(f, 7);
    forall v | lo <= v < n + 1 ensures ZeroPage(mem', ptes'[v]) {
      if v < n {
        assert ZeroPage(mem, sp.ptes[v]) && PageOk(sp, v);
      }
    }
  }

  lemma FilledKept(r: Range, mem: Mem, free: seq<nat>, sp: Space, mem': Mem, ptes0: map<nat, nat>, lo: nat, n: nat)
    requires Repr(r, mem, sp) && Sep(free, sp) && Untouched(mem, mem', free, sp)
    requires Filled(mem, ptes0, sp.ptes, lo, n) && n <= UPAGES
    ensures Filled(mem', ptes0, sp.ptes, lo, n)
  {
    forall v | lo <= v < n ensures ZeroPage(mem', sp.ptes[v]) {
      assert ZeroPage(mem, sp.ptes[v]) && PageOk(sp, v);
    }
  }

  /** Out of memory at page v: there were too few frames for the whole. */
  lemma AllocShort(j: Grow, free: seq<nat>, sp: Space, v: nat, f: nat)
    requires j.lo <= v < j.hi && free == [] && (f != 0 ==> Pdx(v) !in sp.tables)
    requires Slack(free, sp, j.Tables()) + (v - j.lo) + (if f != 0 then 1 else 0) == Slack(j.free, j.sp, j.Tables())
    ensures |j.free| < j.Cost()
  {
    if f != 0 {
      InWindow(j, v);
      MissingSome(sp.tables, j.Tables().i, j.Tables().k, Pdx(v));
    }
  }

  /** In the window of a job, the table of each of its pages. */
  lemma InWindow(j: Grow, v: nat)
    requires j.lo <= v < j.hi
    ensures j.Tables().Has(Pdx(v))
  {
  }

  lemma AllTables(r: Range, j: Grow, mem: Mem, sp: Space)
    requires Repr(r, mem, sp) && j.lo <= j.hi && forall v :: j.lo <= v < j.hi ==> v in sp.ptes
    ensures Missing(sp.tables, j.Tables().i, j.Tables().k) == 0
  {
    var w := j.Tables();
    forall x | w.i <= x < w.k ensures x in sp.tables {
      var v := if x == w.i then j.lo else x * ENTRIES;
      assert PageOk(sp, v);
    }
    MissingNone(sp.tables, w.i, w.k);
  }

  lemma {:induction false} MissingSome(tables: map<nat, nat>, i: nat, k: nat, x: nat)
    requires i <= x < k && x !in tables
    ensures Missing(tables, i, k) > 0
    decreases k - i
  {
    if i < x { MissingSome(tables, i + 1, k, x); }
  }

  /** Giving back the pages taken so far leads back to the pages there were. */
  lemma Undone(r: Range, j: Grow, mem1: Mem, head1: nat, free1: seq<nat>, sp1: Space, n: nat,
               mem2: Mem, head2: nat, free2: seq<nat>, sp2: Space)
    requires j.Valid(r) && Grown(r, j.mem, j.free, j.sp, mem1, head1, free1, sp1) && Pool(free1, sp1) <= Pool(j.free, j.sp)
    requires Filled(mem1, j.sp.ptes, sp1.ptes, j.lo, n) && n <= j.hi
    requires FreeOk(r, mem2, head2, free2) && Repr(r, mem2, sp2) && Sep(free2, sp2)
    requires Dropped(sp1, sp2, j.lo, j.hi) && Kept(mem1, mem2, free1, sp1, sp2)
    ensures Grown(r, j.mem, j.free, j.sp, mem2, head2, free2, sp2) && sp2.ptes == j.sp.ptes
  {
    forall f | f in j.sp.owner ensures f in sp2.owner && sp2.owner[f] == j.sp.owner[f] {
      assert OwnerOk(r, j.mem, j.sp, f);
      match j.sp.owner[f]
      case Dir =>
      case Table(i) => assert PdeOk(mem2, sp2, i);
      case Page(v) => assert PageOk(sp2, v);
    }
    forall f | f in j.mem && f !in j.free && (f in j.sp.owner ==> j.sp.owner[f].Page?)
      ensures f in mem2 && mem2[f] == j.mem[f]
    {
      assert f in Pool(free1, sp1) ==> f in Pool(j.free, j.sp);
    }
  }

  lemma GiveFrame(r: Range, mem0: Mem, free0: seq<nat>, sp0: Space, mem: Mem, head: nat, free: seq<nat>, sp: Space,
                  f: nat)
    requires Grown(r, mem0, free0, sp0, mem, head, free, sp) && r.Has(f)
    requires f !in Pool(free, sp) && Pool(free, sp) + {f} == Pool(free0, sp0)
    ensures Grown(r, mem0, free0, sp0, mem[f := Junk(head)], Ka(f), [f] + free, sp)
    ensures Pool([f] + free, sp) == Pool(free0, sp0)
  {
    FreePush(r, mem, head, free, f);
    ReprFrame(r, mem, mem[f := Junk(head)], sp);
    assert f in Pool(free0, sp0);
  }

  // ----- giving everything back --------------------------------------------

  /** What deallocuvm leaves of a space for freevm: no user pages. */
  ghost predicate Bare(r: Range, mem: Mem, sp: Space) {
    Repr(r, mem, sp) && forall v :: v in sp.ptes ==> v >= UPAGES
  }

  lemma DroppedBare(r: Range, mem: Mem, free: seq<nat>, sp: Space, mem': Mem, sp': Space)
    requires Repr(r, mem', sp') && Dropped(sp, sp', 0, UPAGES) && Kept(mem, mem', free, sp, sp')
    ensures Bare(r, mem', sp') && Outside(mem, mem', Pool(free, sp))
  {
  }

  /** Everything outside a free list and a space stays. */
  ghost predicate Outside(mem: Mem, mem': Mem, pool: set<nat>) {
    forall f :: f in mem && f !in pool ==> f in mem' && mem'[f] == mem[f]
  }

  lemma OutsideTrans(mem0: Mem, mem1: Mem, mem2: Mem, pool: set<nat>)
    requires Outside(mem0, mem1, pool) && Outside(mem1, mem2, pool)
    ensures Outside(mem0, mem2, pool)
  {
  }

  /** freevm has given back the tables below index i.  `mem0`, `free0` are as it found them;
      the directory still stands as it was. */
  ghost predicate Closing(r: Range, mem0: Mem, free0: seq<nat>, sp: Space, mem: Mem, head: nat, free: seq<nat>,
                          i: nat) {
    && FreeOk(r, mem, head, free)
    && (forall f :: f in free <==> f in free0 || TableBelow(sp, f, i))
    && (forall f :: f in mem0 && f !in free0 && !TableBelow(sp, f, i) ==> f in mem && mem[f] == mem0[f])
  }

  ghost predicate TableBelow(sp: Space, f: nat, i: nat) {
    f in sp.owner && sp.owner[f].Table? && sp.owner[f].i < i
  }

  /** The next index: a table, to give back, or none. */
  lemma CloseNext(r: Range, mem0: Mem, free0: seq<nat>, sp: Space, mem: Mem, head: nat, free: seq<nat>, i: nat)
    requires Closing(r, mem0, free0, sp, mem, head, free, i) && Repr(r, mem0, sp) && Sep(free0, sp) && i < ENTRIES
    ensures sp.dir in mem && |mem[sp.dir]| == ENTRIES
    ensures var e := mem[sp.dir][i];
      if Present(e) then
        && r.Has(FrameOf(e)) && FrameOf(e) !in free
        && Closing(r, mem0, free0, sp, mem[FrameOf(e) := Junk(head)], Ka(FrameOf(e)), [FrameOf(e)] + free, i + 1)
      else Closing(r, mem0, free0, sp, mem, head, free, i + 1)
  {
    assert PdeOk(mem0, sp, i) && mem[sp.dir] == mem0[sp.dir];
    var e := mem[sp.dir][i];
    if Present(e) {
      var f := sp.tables[i];
      EntryParts(f, 7);
      assert OwnerOk(r, mem0, sp, f);
      FreePush(r, mem, head, free, f);
      CloseStep(r, mem0, sp, i, f);
    } else {
      CloseNone(r, mem0, sp, i);
    }
  }

  lemma CloseStep(r: Range, mem0: Mem, sp: Space, i: nat, f: nat)
    requires Repr(r, mem0, sp) && i in sp.tables && sp.tables[i] == f && i < ENTRIES
    ensures forall g :: TableBelow(sp, g, i + 1) <==> TableBelow(sp, g, i) || g == f
  {
    assert PdeOk(mem0, sp, i);
    forall g ensures TableBelow(sp, g, i + 1) <==> TableBelow(sp, g, i) || g == f {
      if g in sp.owner {
        assert OwnerOk(r, mem0, sp, g);
      }
    }
  }

  lemma CloseNone(r: Range, mem0: Mem, sp: Space, i: nat)
    requires Repr(r, mem0, sp) && i !in sp.tables
    ensures forall g :: TableBelow(sp, g, i + 1) <==> TableBelow(sp, g, i)
  {
    forall g ensures TableBelow(sp, g, i + 1) <==> TableBelow(sp, g, i) {
      if g in sp.owner {
        assert OwnerOk(r, mem0, sp, g);
      }
    }
  }

  /** With the tables gone only the directory is left. */
  lemma Closed(r: Range, mem0: Mem, free0: seq<nat>, sp: Space, mem: Mem, head: nat, free: seq<nat>)
    requires Closing(r, mem0, free0, sp, mem, head, free, ENTRIES) && Bare(r, mem0, sp) && Sep(free0, sp)
    ensures r.Has(sp.dir) && sp.dir !in free
    ensures Listed(free) + {sp.dir} == Pool(free0, sp)
  {
    assert OwnerOk(r, mem0, sp, sp.dir);
    forall f | f in sp.owner ensures f == sp.dir || TableBelow(sp, f, ENTRIES) {
      assert OwnerOk(r, mem0, sp, f);
    }
  }

  // ----- the kernel's part of every page table -----------------------------

  const EXTMEM := 0x10_0000
  const PHYSTOP := 0xE00_0000
  const DEVSPACE := 0xFE00_0000

  datatype Kmap = Kmap(virt: nat, start: nat, end: nat, perm: nat) {
    /** phys_end - phys_start, in 32 bits. */
    function Size(): nat {
      (end - start) % WORD
    }
  }

  /** `data` is the address of the kernel's data. */
  function Kmaps(data: nat): seq<Kmap>
    requires data >= KERNBASE
  {
    [ Kmap(KERNBASE, 0, EXTMEM, PTE_W),
      Kmap(KERNBASE + EXTMEM, EXTMEM, data - KERNBASE, 0),
      Kmap(data, data - KERNBASE, PHYSTOP, PTE_W),
      Kmap(DEVSPACE, DEVSPACE, 0, PTE_W) ]
  }

  /** The linker script puts the data on a page boundary after the text. */
  predicate DataOk(data: nat) {
    data % PGSIZE == 0 && KERNBASE + EXTMEM < data < KERNBASE + PHYSTOP
  }

  /** The kernel's pages: physical memory at KERNBASE, and the devices where they are. */
  predicate KernelPage(v: int) {
    0x80000 <= v < 0x8E000 || 0xFE000 <= v < 0x10_0000
  }

  /** Read-only from EXTMEM to the kernel's data, writable elsewhere, never the user's. */
  function KernelEntry(data: nat, v: nat): nat
    requires KernelPage(v)
  {
    Entry(if v < 0x8E000 then v - 0x80000 else v, if 0x80100 <= v < data / PGSIZE then 1 else 3)
  }

  /** Exactly the kernel's pages below page m. */
  ghost predicate KernelTo(data: nat, ptes: map<nat, nat>, m: nat) {
    && (forall v :: v in ptes <==> KernelPage(v) && v < m)
    && (forall v :: v in ptes ==> ptes[v] == KernelEntry(data, v))
  }

  function Reached(data: nat, k: nat): nat {
    if k == 0 then 0x80000 else if k == 1 then 0x80100 else if k == 2 then data / PGSIZE
    else if k == 3 then 0x8E000 else VPAGES
  }

  /** The page tables over them: 56 for memory, 8 for devices. */
  const MEMORY := Window(512, 568)
  const DEVICES := Window(1016, 1024)

  function KernelTables(k: nat): Window {
    if k < 3 then MEMORY else DEVICES
  }

  ghost function Absent(sp: Space, w: Window): nat {
    Missing(sp.tables, w.i, w.k)
  }

  ghost function AbsentTables(sp: Space): nat {
    Absent(sp, MEMORY) + Absent(sp, DEVICES)
  }

  /** What an entry asks for, in pages: from v0 to v1, mapped to frames from f0 on. */
  datatype Extent = Extent(v0: nat, v1: nat, f0: nat, flags: nat) {
    ghost predicate Of(m: Kmap) {
      && m.virt < WORD && 0 < m.Size() && m.start % PGSIZE == 0 && WithP(m.perm) == flags < PGSIZE
      && m.virt / PGSIZE == v0 && LastPage(m.virt, m.Size()) == v1 && m.start / PGSIZE == f0
    }
  }

  function KernelExtent(data: nat, k: nat): Extent
    requires DataOk(data) && k < 4
  {
    if k < 3 then Extent(Reached(data, k), Reached(data, k + 1) - 1, Reached(data, k) - 0x80000, if k == 1 then 1 else 3)
    else Extent(0xFE000, VPAGES - 1, 0xFE000, 3)
  }

  lemma ExtentTables(data: nat, k: nat, v: nat)
    requires DataOk(data) && k < 4 && KernelExtent(data, k).v0 <= v <= KernelExtent(data, k).v1
    ensures KernelTables(k).Has(Pdx(v))
  {
  }

  lemma ExtentMappable(r: Range, data: nat, free: seq<nat>, sp: Space, k: nat) returns (x: Extent)
    requires DataOk(data) && k < 4 && KernelTo(data, sp.ptes, Reached(data, k))
    ensures x == KernelExtent(data, k) && x.Of(Kmaps(data)[k])
    ensures Mappable(r, free, sp, x.v0, x.v1, x.f0) && x.v0 >= UPAGES
    ensures KernelTables(k).Has(Pdx(x.v0)) && KernelTables(k).Has(Pdx(x.v1))
  {
    x := KernelExtent(data, k);
    ExtentTables(data, k, x.v0);
    ExtentTables(data, k, x.v1);
  }

  lemma KernelNext(data: nat, ptes: map<nat, nat>, ptes': map<nat, nat>, k: nat)
    requires DataOk(data) && k < 4 && KernelTo(data, ptes, Reached(data, k))
    requires
      var x := KernelExtent(data, k);
      x.v0 <= x.v1 && MapsRange(ptes, ptes', x.v0, x.v1 - x.v0 + 1, x.f0, x.flags)
    ensures KernelTo(data, ptes', Reached(data, k + 1))
  {
  }

  lemma {:induction false} MissingSame(tables: map<nat, nat>, tables': map<nat, nat>, i: nat, k: nat)
    requires forall x :: i <= x < k ==> (x in tables <==> x in tables')
    ensures Missing(tables, i, k) == Missing(tables', i, k)
    decreases k - i
  {
    if i < k { MissingSame(tables, tables', i + 1, k); }
  }

  lemma {:induction false} MissingAll(tables: map<nat, nat>, i: nat, k: nat)
    requires i <= k && forall x :: i <= x < k ==> x !in tables
    ensures Missing(tables, i, k) == k - i
    decreases k - i
  {
    if i < k { MissingAll(tables, i + 1, k); }
  }

  /** The page tables an entry takes come out of the free list, and none but its own. */
  lemma KernelPays(free: seq<nat>, sp: Space, free': seq<nat>, sp': Space, k: nat)
    requires Slack(free', sp', KernelTables(k)) == Slack(free, sp, KernelTables(k))
    requires Extends(sp, sp') && Inside(sp, sp', KernelTables(k))
    ensures |free'| - AbsentTables(sp') == |free| - AbsentTables(sp)
  {
    if k < 3 {
      MissingSame(sp.tables, sp'.tables, DEVICES.i, DEVICES.k);
    } else {
      MissingSame(sp.tables, sp'.tables, MEMORY.i, MEMORY.k);
    }
  }

  lemma KernelTablesThere(r: Range, data: nat, mem: Mem, sp: Space)
    requires Repr(r, mem, sp) && KernelTo(data, sp.ptes, VPAGES)
    ensures AbsentTables(sp) == 0
  {
    forall x | 512 <= x < 568 || 1016 <= x < 1024 ensures x in sp.tables {
      assert PageOk(sp, x * ENTRIES);
    }
    MissingNone(sp.tables, MEMORY.i, MEMORY.k);
    MissingNone(sp.tables, DEVICES.i, DEVICES.k);
  }

  lemma KernelShort(data: nat, sp: Space, k: nat, v: nat)
    requires DataOk(data) && k < 4 && KernelExtent(data, k).v0 <= v <= KernelExtent(data, k).v1 && Pdx(v) !in sp.tables
    ensures AbsentTables(sp) > 0
  {
    ExtentTables(data, k, v);
    MissingSome(sp.tables, KernelTables(k).i, KernelTables(k).k, Pdx(v));
  }

  lemma ExtentMapped(data: nat, ptes: map<nat, nat>, sp': Space, k: nat, x: Extent, n: nat, ok: bool)
    requires DataOk(data) && k < 4 && KernelTo(data, ptes, Reached(data, k)) && x == KernelExtent(data, k) && x.v0 <= x.v1
    requires ok ==> MapsRange(ptes, sp'.ptes, x.v0, x.v1 - x.v0 + 1, x.f0, x.flags)
    requires !ok ==> n <= x.v1 - x.v0 && Pdx(x.v0 + n) !in sp'.tables
    ensures ok ==> KernelTo(data, sp'.ptes, Reached(data, k + 1))
    ensures !ok ==> AbsentTables(sp') > 0
  {
    if ok {
      KernelNext(data, ptes, sp'.ptes, k);
    } else {
      KernelShort(data, sp', k, x.v0 + n);
    }
  }

  ghost predicate NoUserTable(sp: Space) {
    forall x :: x in sp.tables ==> x >= 512
  }

  /** setupkvm at entry k; it started with the memory mem0 and the free list free0. */
  ghost predicate SettingUp(
    r: Range, data: nat, mem0: Mem, free0: seq<nat>, mem: Mem, head: nat, free: seq<nat>, sp: Space, k: nat) {
    && FreeOk(r, mem, head, free) && Repr(r, mem, sp) && Sep(free, sp)
    && Pool(free, sp) == Listed(free0) && Outside(mem0, mem, Listed(free0))
    && KernelTo(data, sp.ptes, Reached(data, k)) && |free| - AbsentTables(sp) == |free0| - 65 && NoUserTable(sp)
  }

  function EmptySpace(d: nat): Space {
    Space(d, map[], map[], map[d := Dir])
  }

  lemma EmptyRepr(r: Range, mem: Mem, d: nat)
    requires r.Has(d) && d in mem && mem[d] == Zeros()
    ensures Repr(r, mem, EmptySpace(d))
  {
  }

  lemma StartSetUp(r: Range, data: nat, mem0: Mem, free0: seq<nat>, head: nat, free: seq<nat>, d: nat)
    requires FreeOk(r, mem0, head, free) && free0 == [d] + free && d !in free && r.Has(d) && DataOk(data)
    ensures SettingUp(r, data, mem0, free0, mem0[d := Zeros()], head, free, EmptySpace(d), 0)
  {
    var mem, sp := mem0[d := Zeros()], EmptySpace(d);
    FreeFrame(r, mem0, mem, head, free);
    EmptyRepr(r, mem, d);
    MissingAll(sp.tables, MEMORY.i, MEMORY.k);
    MissingAll(sp.tables, DEVICES.i, DEVICES.k);
    assert d == free0[0];
  }

  lemma GrownOutside(mem0: Mem, free0: seq<nat>, mem1: Mem, free1: seq<nat>, sp1: Space, mem2: Mem)
    requires Outside(mem0, mem1, Listed(free0)) && Pool(free1, sp1) == Listed(free0) && Untouched(mem1, mem2, free1, sp1)
    ensures Outside(mem0, mem2, Listed(free0))
  {
    forall f | f in mem0 && f !in Listed(free0) ensures f in mem2 && mem2[f] == mem0[f] {
      assert f !in Pool(free1, sp1);
    }
  }

  // ----- copying a space ---------------------------------------------------

  /** The same flags, and a page with the same bytes. */
  ghost predicate CopyOf(mem: Mem, e: nat, mem': Mem, e': nat) {
    && Flags(e') == Flags(e) && FrameOf(e) in mem && FrameOf(e') in mem' && mem'[FrameOf(e')] == mem[FrameOf(e)]
  }

  /** ptes' is ptes with copies of the first n pages of the space sp. */
  ghost predicate Copied(mem: Mem, sp: Space, mem': Mem, ptes: map<nat, nat>, ptes': map<nat, nat>, n: nat) {
    && (forall v :: v in ptes' <==> v in ptes || 0 <= v < n)
    && (forall v :: v in ptes && v >= n ==> ptes'[v] == ptes[v])
    && (forall v :: 0 <= v < n ==> v in sp.ptes && CopyOf(mem, sp.ptes[v], mem', ptes'[v]))
  }

  /** What copyuvm starts from: the parent's space. */
  datatype Source = Source(mem: Mem, free: seq<nat>, sp: Space) {
    ghost predicate Valid(r: Range, n: nat) {
      Repr(r, mem, sp) && Sep(free, sp) && n <= UPAGES && forall v :: 0 <= v < n ==> v in sp.ptes
    }
  }

  /** copyuvm has copied n pages into the space sp, which was j.sp after setupkvm. */
  ghost predicate Copying(r: Range, p: Source, j: Grow, mem: Mem, head: nat, free: seq<nat>, sp: Space, n: nat) {
    && Grown(r, j.mem, j.free, j.sp, mem, head, free, sp) && Pool(free, sp) == Pool(j.free, j.sp)
    && Copied(p.mem, p.sp, mem, j.sp.ptes, sp.ptes, n)
    && Slack(free, sp, j.Tables()) + n == Slack(j.free, j.sp, j.Tables())
    && Outside(p.mem, mem, Listed(p.free))
  }

  lemma ParentKept(r: Range, p: Source, mem: Mem, n: nat)
    requires p.Valid(r, n) && Outside(p.mem, mem, Listed(p.free))
    ensures Repr(r, mem, p.sp)
  {
    ReprFrame(r, p.mem, mem, p.sp);
  }

  lemma ParentPage(r: Range, p: Source, mem: Mem, n: nat, v: nat)
    requires p.Valid(r, n) && Outside(p.mem, mem, Listed(p.free)) && v < n
    ensures v in p.sp.ptes && Pdx(v) in p.sp.tables && p.sp.tables[Pdx(v)] in mem && |mem[p.sp.tables[Pdx(v)]]| == ENTRIES
    ensures mem[p.sp.tables[Pdx(v)]][Ptx(v)] == p.sp.ptes[v]
    ensures
      var e := p.sp.ptes[v];
      Present(e) && FrameOf(e) in p.mem && FrameOf(e) in mem && mem[FrameOf(e)] == p.mem[FrameOf(e)] && |mem[FrameOf(e)]| == ENTRIES
  {
    ParentKept(r, p, mem, n);
    assert PageOk(p.sp, v);
    assert PteOk(mem, p.sp, v) && OwnerOk(r, p.mem, p.sp, FrameOf(p.sp.ptes[v]));
  }

  lemma CopiedNext(r: Range, p: Source, mem: Mem, free: seq<nat>, sp: Space, mem': Mem, ptes0: map<nat, nat>,
                   ptes': map<nat, nat>,
                   n: nat, f: nat, flags: nat)
    requires Repr(r, mem, sp) && Sep(free, sp) && Untouched(mem, mem', free, sp)
    requires Copied(p.mem, p.sp, mem, ptes0, sp.ptes, n) && n < UPAGES && n in p.sp.ptes
    requires flags == Flags(p.sp.ptes[n]) && FrameOf(p.sp.ptes[n]) in p.mem
    requires ptes' == sp.ptes[n := Entry(f, flags)] && f in mem' && mem'[f] == p.mem[FrameOf(p.sp.ptes[n])]
    ensures Copied(p.mem, p.sp, mem', ptes0, ptes', n + 1)
  {
    EntryParts(f, flags);
    forall v | 0 <= v < n + 1 ensures CopyOf(p.mem, p.sp.ptes[v], mem', ptes'[v]) {
      if v < n {
        assert CopyOf(p.mem, p.sp.ptes[v], mem, sp.ptes[v]) && PageOk(sp, v);
      }
    }
  }

  lemma FlagsOf(e: nat)
    requires Present(e)
    ensures WithP(Flags(e)) == Flags(e) < PGSIZE
  {
  }

  /** Page tables over the first n pages. */
  function TablesFor(n: nat): nat {
    (n + ENTRIES - 1) / ENTRIES
  }

  /** A child's pages: copies of its parent's first n, and the kernel's. */
  ghost predicate Child(data: nat, mem: Mem, ps: Space, mem': Mem, sp: Space, n: nat) {
    && (forall v :: v in sp.ptes <==> 0 <= v < n || KernelPage(v))
    && (forall v :: KernelPage(v) ==> sp.ptes[v] == KernelEntry(data, v))
    && (forall v :: 0 <= v < n ==> v in ps.ptes && CopyOf(mem, ps.ptes[v], mem', sp.ptes[v]))
    && (forall f :: f in sp.owner ==> f !in ps.owner)
  }

  lemma CopiedChild(r: Range, data: nat, p: Source, j: Grow, mem: Mem, free: seq<nat>, sp: Space)
    requires p.Valid(r, j.hi) && Copied(p.mem, p.sp, mem, j.sp.ptes, sp.ptes, j.hi)
    requires KernelTo(data, j.sp.ptes, VPAGES) && Pool(free, sp) == Listed(p.free)
    ensures Child(data, p.mem, p.sp, mem, sp, j.hi)
  {
    forall f | f in sp.owner ensures f !in p.sp.owner {
      assert f in Listed(p.free);
    }
  }

  lemma StartCopy(r: Range, p: Source, j: Grow, head: nat, data: nat)
    requires p.Valid(r, j.hi) && j.lo == 0 && j.hi <= UPAGES
    requires FreeOk(r, j.mem, head, j.free) && Repr(r, j.mem, j.sp) && Sep(j.free, j.sp)
    requires KernelTo(data, j.sp.ptes, VPAGES) && NoUserTable(j.sp) && Outside(p.mem, j.mem, Listed(p.free))
    ensures j.Valid(r) && Copying(r, p, j, j.mem, head, j.free, j.sp, 0)
    ensures j.Cost() == j.hi + TablesFor(j.hi)
  {
    CopyCost(j);
  }

  lemma CopyCost(j: Grow)
    requires j.lo == 0 && j.hi <= UPAGES && NoUserTable(j.sp)
    ensures j.Cost() == j.hi + TablesFor(j.hi)
  {
    MissingAll(j.sp.tables, j.Tables().i, j.Tables().k);
  }

  class Machine {
    const r: Range
    const data: nat
    var mem: Mem
    var freelist: nat
    ghost var free: seq<nat>

    ghost predicate Valid()
      reads this
    {
      FreeOk(r, mem, freelist, free)
    }

    /** The frame of a page off the list, or 0 if there is none. */
    method Kalloc() returns (f: nat)
      requires Valid()
      modifies this`freelist, this`free
      ensures Valid()
      ensures old(free) == [] ==> f == 0 && free == []
      ensures old(free) != [] ==> r.Has(f) && old(free) == [f] + free && f !in free
    {
      if freelist == 0 {
        f := 0;
      } else {
        FreePop(r, mem, freelist, free);
        f := (freelist - KERNBASE) / PGSIZE;
        freelist := mem[f][0];
        free := free[1..];
      }
    }

    method Kfree(f: nat)
      requires Valid() && r.Has(f) && f !in free
      modifies this
      ensures Valid() && free == [f] + old(free)
      ensures mem == old(mem)[f := Junk(old(freelist))] && freelist == Ka(f)
    {
      FreePush(r, mem, freelist, free, f);
      mem := mem[f := Junk(freelist)];
      freelist := Ka(f);
      free := [f] + free;
    }

    /** walkpgdir without alloc: the frame of the page table for virtual page v, or 0. */
    method Lookup(ghost sp: Space, d: nat, v: nat) returns (t: nat)
      requires Repr(r, mem, sp) && d == sp.dir && v < VPAGES
      ensures t == 0 <==> Pdx(v) !in sp.tables
      ensures t != 0 ==> t == sp.tables[Pdx(v)]
    {
      var pde := mem[d][Pdx(v)];
      assert PdeOk(mem, sp, Pdx(v));
      if Present(pde) {
        t := FrameOf(pde);
        EntryParts(sp.tables[Pdx(v)], 7);
        assert OwnerOk(r, mem, sp, t);
      } else {
        t := 0;
      }
    }

    /** walkpgdir with alloc: the table is made if need be; 0 if there is no memory for it. */
    method Walkpgdir(ghost sp: Space, d: nat, v: nat) returns (t: nat, ghost sp': Space)
      requires Valid() && Repr(r, mem, sp) && Sep(free, sp) && d == sp.dir && v < VPAGES
      modifies this
      ensures Valid() && Repr(r, mem, sp') && Sep(free, sp')
      ensures Extends(sp, sp') && sp'.ptes == sp.ptes && Pool(free, sp') == Pool(old(free), sp)
      ensures Untouched(old(mem), mem, old(free), sp)
      ensures t == 0 <==> Pdx(v) !in sp.tables && old(free) == []
      ensures t == 0 || Pdx(v) in sp.tables ==> sp' == sp && mem == old(mem) && free == old(free)
      ensures t != 0 ==> Pdx(v) in sp'.tables && sp'.tables[Pdx(v)] == t
      ensures Paid(old(free), sp, free, sp', Pdx(v))
    {
      sp' := sp;
      t := Lookup(sp, d, v);
      if t == 0 {
        t := Kalloc();
        if t != 0 {
          AddTable(r, mem, sp, Pdx(v), t);
          sp' := WithTable(sp, Pdx(v), t);
          ghost var mem' := StoreTable(mem, d, Pdx(v), t);
          FreeFrame(r, mem, mem', freelist, free);
          mem := mem[t := Zeros()];
          mem := mem[d := Put(mem[d], Pdx(v), Entry(t, 7))];
          assert mem == mem';
        }
      }
    }

    /** One round of mappages: the entry for virtual page v, in a table made on demand. */
    method MapPage(
      ghost mem0: Mem, ghost free0: seq<nat>, ghost sp0: Space, ghost sp: Space, d: nat, v: nat, pa: nat, flags: nat, ghost f: nat)
      returns (ok: bool, ghost sp': Space)
      requires Grown(r, mem0, free0, sp0, mem, freelist, free, sp) && OnlyPages(free0, sp0, free, sp) && d == sp.dir
      requires Fresh(r, free, sp, v, f) && pa == f * PGSIZE && flags < PGSIZE && flags % 2 == 1
      modifies this
      ensures Grown(r, mem0, free0, sp0, mem, freelist, free, sp')
      ensures ok ==> sp'.ptes == sp.ptes[v := Entry(f, flags)]
      ensures !ok ==> sp'.ptes == sp.ptes && free == [] && Pdx(v) !in sp'.tables
      ensures Pool(free, sp') == Pool(old(free), sp) + if ok && v < UPAGES then {f} else {}
      ensures OnlyPages(free0, sp0, free, sp') && Paid(old(free), sp, free, sp', Pdx(v))
    {
      ghost var mem1, free1 := mem, free;
      var t;
      t, sp' := Walkpgdir(sp, d, v);
      UntouchedTrans(mem0, free0, sp0, mem1, free1, sp, mem);
      ok := t != 0;
      if ok {
        MapStep(r, mem0, free0, sp0, mem, freelist, free, sp', v, f, flags);
        ghost var mem2 := StorePte(mem, t, Ptx(v), Entry(f, flags));
        var e := pa + flags;
        assert e == Entry(f, flags);
        mem := mem[t := Put(mem[t], Ptx(v), e)];
        sp' := WithPte(sp', v, f, flags);
        assert mem == mem2;
      }
    }

    /** The same, as part of a job, at address a. */
    method MapNext(ghost j: Job, ghost sp: Space, d: nat, a: nat, pa: nat, flags: nat, ghost n: nat)
      returns (ok: bool, ghost sp': Space)
      requires j.Valid(r) && Mapped(r, j, mem, freelist, free, sp, n) && d == j.sp.dir
      requires n <= j.v1 - j.v0 && a == (j.v0 + n) * PGSIZE && pa == (j.f0 + n) * PGSIZE && flags == j.flags
      modifies this
      ensures ok ==> Mapped(r, j, mem, freelist, free, sp', n + 1)
      ensures !ok ==> Mapped(r, j, mem, freelist, free, sp', n) && Short(j, free, sp', n)
    {
      ghost var f := j.f0 + n;
      var v := PageNumber(a, j.v0 + n);
      MappableNext(r, j, free, sp, n, v, f);
      ghost var free1 := free;
      ok, sp' := MapPage(j.mem, j.free, j.sp, sp, d, v, pa, flags, f);
      PaidKeepsSlack(free1, sp, free, sp', Pdx(v), j.w);
      if ok {
        MappedNext(r, j, mem, freelist, free, sp', n, sp.ptes, v, f);
      }
    }

    /** The loop of mappages, from address a to address last. */
    method MapLoop(ghost j: Job, d: nat, start: nat, last: nat, pa: nat, flags: nat)
      returns (ok: bool, ghost sp': Space, ghost n: nat)
      requires j.Valid(r) && Mapped(r, j, mem, freelist, free, j.sp, 0) && d == j.sp.dir
      requires start == j.v0 * PGSIZE && last == j.v1 * PGSIZE && pa == j.f0 * PGSIZE && flags == j.flags
      modifies this
      ensures Mapped(r, j, mem, freelist, free, sp', n)
      ensures n <= j.v1 - j.v0 + 1 && (ok <==> n == j.v1 - j.v0 + 1)
      ensures !ok ==> Short(j, free, sp', n)
    {
      var a, p := start, pa;
      sp', n := j.sp, 0;
      while true
        invariant Mapped(r, j, mem, freelist, free, sp', n)
        invariant n <= j.v1 - j.v0 && a == (j.v0 + n) * PGSIZE && p == (j.f0 + n) * PGSIZE
        decreases j.v1 - n
      {
        ok, sp' := MapNext(j, sp', d, a, p, flags, n);
        n := if ok then n + 1 else n;
        if !ok || a == last {
          break;
        }
        a, p := a + PGSIZE, p + PGSIZE;
      }
    }

    /** mappages.  n pages get mapped, all of them unless memory for a table runs out. */
    method Mappages(ghost sp: Space, d: nat, va: nat, size: nat, pa: nat, perm: nat, ghost w: Window)
      returns (ok: bool, ghost sp': Space, ghost n: nat)
      requires Valid() && Repr(r, mem, sp) && Sep(free, sp) && d == sp.dir
      requires va < WORD && 0 < size && pa % PGSIZE == 0 && WithP(perm) < PGSIZE
      requires Mappable(r, free, sp, va / PGSIZE, LastPage(va, size), pa / PGSIZE)
      requires w.Has(Pdx(va / PGSIZE)) && w.Has(Pdx(LastPage(va, size)))
      modifies this
      ensures Grown(r, old(mem), old(free), sp, mem, freelist, free, sp')
      ensures n <= LastPage(va, size) - va / PGSIZE + 1
      ensures ok <==> n == LastPage(va, size) - va / PGSIZE + 1
      ensures !ok ==> free == [] && Pdx(va / PGSIZE + n) !in sp'.tables
      ensures Slack(free, sp', w) == Slack(old(free), sp, w) && Inside(sp, sp', w)
      ensures MapsRange(sp.ptes, sp'.ptes, va / PGSIZE, n, pa / PGSIZE, WithP(perm))
      ensures Pool(free, sp') == Pool(old(free), sp) + Taken(va / PGSIZE, pa / PGSIZE, n)
    {
      MapArith(va, size);
      ghost var j := Job(mem, free, sp, va / PGSIZE, LastPage(va, size), pa / PGSIZE, WithP(perm), w);
      ok, sp', n := MapLoop(j, d, RoundDown(va), RoundDown((va + size - 1) % WORD), pa, WithP(perm));
    }

    /** kfree, and zero in the entry. */
    method DropEntry(f: nat, t: nat, i: nat)
      requires Valid() && r.Has(f) && f !in free && t in mem && i < |mem[t]| && t != f
      modifies this
      ensures mem == StoreDrop(old(mem), old(freelist), f, t, i)
      ensures freelist == Ka(f) && free == [f] + old(free)
    {
      Kfree(f);
      mem := mem[t := Put(mem[t], i, 0)];
    }

    /** The jump to PGADDR(PDX(a) + 1, 0, 0), short of one page. */
    method Jump(ghost j: Drop, ghost sp: Space, v: nat, ghost hi: nat) returns (a: nat, ghost v': nat, ghost n: nat)
      requires Dropping(r, j, mem, freelist, free, sp, v) && Pdx(v) !in sp.tables && j.lo <= v < hi <= UPAGES
      ensures DroppedTo(j, mem, free, sp, n)
      ensures v < v' <= UPAGES && a + PGSIZE == v' * PGSIZE && n == Least(v', hi)
    {
      DropJump(r, j, mem, freelist, free, sp, v, hi);
      v', n := Beyond(v), Least(Beyond(v), hi);
      a := (Pdx(v) + 1) * (ENTRIES * PGSIZE) - PGSIZE;
    }

    /** One round of deallocuvm at page v, address a.  A jump may pass page hi. */
    method DeallocNext(ghost j: Drop, ghost sp: Space, d: nat, a: nat, ghost v: nat, ghost hi: nat)
      returns (a': nat, ghost sp': Space, ghost v': nat, ghost n': nat)
      requires Dropping(r, j, mem, freelist, free, sp, v) && d == sp.dir
      requires j.lo <= v < hi <= UPAGES && a == v * PGSIZE
      modifies this
      ensures Dropping(r, j, mem, freelist, free, sp', n') && d == sp'.dir
      ensures v < v' <= UPAGES && a' == v' * PGSIZE && n' == Least(v', hi)
    {
      var p := PageNumber(a, v);
      var t := Lookup(sp, d, p);
      if t == 0 {
        sp' := sp;
        a', v', n' := Jump(j, sp, p, hi);
      } else {
        sp' := DeallocHere(j, sp, p, t);
        v', n' := p + 1, p + 1;
        a' := a;
      }
      a' := a' + PGSIZE;
    }

    method DeallocHere(ghost j: Drop, ghost sp: Space, v: nat, t: nat) returns (ghost sp': Space)
      requires Dropping(r, j, mem, freelist, free, sp, v) && j.lo <= v < UPAGES
      requires Pdx(v) in sp.tables && t == sp.tables[Pdx(v)]
      modifies this
      ensures Dropping(r, j, mem, freelist, free, sp', v + 1) && sp'.dir == sp.dir
    {
      assert PteOk(mem, sp, v) && PdeOk(mem, sp, Pdx(v));
      var e := mem[t][Ptx(v)];
      if Present(e) {
        var f := FrameOf(e);
        DropNext(r, j, mem, freelist, free, sp, v, f, t);
        DropEntry(f, t, Ptx(v));
        sp' := WithoutPte(sp, v);
      } else {
        sp' := sp;
        DropNone(j, mem, free, sp, v);
      }
    }

    /** deallocuvm: gives back the pages from newsz, rounded up, to oldsz, in the order a
        page-by-page loop would, and no others. */
    method Deallocuvm(ghost sp: Space, d: nat, oldsz: nat, newsz: nat) returns (sz: nat, ghost sp': Space)
      requires Valid() && Repr(r, mem, sp) && Sep(free, sp) && d == sp.dir && oldsz <= KERNBASE
      modifies this
      ensures sz == if newsz >= oldsz then oldsz else newsz
      ensures Valid() && Repr(r, mem, sp') && Sep(free, sp') && Pool(free, sp') == Pool(old(free), sp)
      ensures Dropped(sp, sp', Pages(newsz), Pages(oldsz))
      ensures free == Freed(sp.ptes, Pages(newsz), Pages(oldsz)) + old(free)
      ensures Kept(old(mem), mem, old(free), sp, sp')
    {
      sp' := sp;
      if newsz >= oldsz {
        return oldsz, sp';
      }
      PagesCover(newsz);
      PagesCover(oldsz);
      ghost var j := Drop(mem, free, sp, Pages(newsz));
      sp' := DeallocLoop(j, sp, d, RoundUp(newsz), oldsz);
      sz := newsz;
    }

    method DeallocLoop(ghost j: Drop, ghost sp: Space, d: nat, start: nat, oldsz: nat) returns (ghost sp': Space)
      requires Dropping(r, j, mem, freelist, free, sp, j.lo) && d == sp.dir
      requires j.lo <= Pages(oldsz) <= UPAGES && start == j.lo * PGSIZE
      modifies this
      ensures Dropping(r, j, mem, freelist, free, sp', Pages(oldsz))
    {
      sp' := sp;
      var a := start;
      ghost var v, n, hi := j.lo, j.lo, Pages(oldsz);
      PagesCover(oldsz);
      while a < oldsz
        invariant Dropping(r, j, mem, freelist, free, sp', n) && d == sp'.dir
        invariant j.lo <= v <= UPAGES && a == v * PGSIZE && n == Least(v, hi)
        decreases UPAGES - v
      {
        a, sp', v, n := DeallocNext(j, sp', d, a, v, hi);
      }
    }

    /** mappages for one user page. */
    method MapOne(ghost sp: Space, d: nat, a: nat, ghost v: nat, f: nat, perm: nat, ghost w: Window)
      returns (ok: bool, ghost sp': Space)
      requires Valid() && Repr(r, mem, sp) && Sep(free, sp) && d == sp.dir && a == v * PGSIZE && v < UPAGES
      requires v !in sp.ptes && r.Has(f) && f !in Pool(free, sp) && WithP(perm) < PGSIZE && w.Has(Pdx(v))
      modifies this
      ensures Grown(r, old(mem), old(free), sp, mem, freelist, free, sp')
      ensures sp'.ptes == if ok then sp.ptes[v := Entry(f, WithP(perm))] else sp.ptes
      ensures Pool(free, sp') == Pool(old(free), sp) + if ok then {f} else {}
      ensures Slack(free, sp', w) == Slack(old(free), sp, w)
      ensures !ok ==> free == [] && Pdx(v) !in sp'.tables
    {
      OnePage(a, v, f);
      ghost var n;
      ok, sp', n := Mappages(sp, d, a, PGSIZE, f * PGSIZE, perm, w);
      TakenOne(v, f, n);
      OneMapped(sp.ptes, sp'.ptes, v, n, f, WithP(perm));
    }

    /** A fresh page with contents w at virtual page v.  If there is no memory for its
        page table the frame f is left in hand. */
    method NewPage(ghost mem0: Mem, ghost free0: seq<nat>, ghost sp0: Space, ghost sp: Space,
                   d: nat, a: nat, ghost v: nat, b: Words, perm: nat, ghost w: Window) returns (ok: bool, f: nat, ghost sp': Space)
      requires Grown(r, mem0, free0, sp0, mem, freelist, free, sp) && Pool(free, sp) == Pool(free0, sp0) && d == sp.dir
      requires a == v * PGSIZE && v < UPAGES && v !in sp.ptes && |b| == ENTRIES && WithP(perm) < PGSIZE && w.Has(Pdx(v))
      modifies this
      ensures Grown(r, mem0, free0, sp0, mem, freelist, free, sp')
      ensures Extends(sp, sp') && Untouched(old(mem), mem, old(free), sp)
      ensures ok ==> f != 0 && sp'.ptes == sp.ptes[v := Entry(f, WithP(perm))] && f in mem && mem[f] == b
      ensures !ok ==> sp'.ptes == sp.ptes && (f != 0 ==> r.Has(f) && f !in Pool(free, sp'))
      ensures Pool(free, sp') + (if !ok && f != 0 then {f} else {}) == Pool(free0, sp0)
      ensures Slack(free, sp', w) == Slack(old(free), sp, w) - (if f != 0 then 1 else 0)
      ensures !ok ==> free == [] && (f != 0 ==> Pdx(v) !in sp'.tables)
    {
      ok, sp' := false, sp;
      ghost var mem1, head1, free1 := mem, freelist, free;
      f := Kalloc();
      if f != 0 {
        TakeFrame(r, mem0, free0, sp0, mem, head1, free1, sp, f, free, freelist, b);
        mem := mem[f := b];
        ghost var mem2, head2, free2 := mem, freelist, free;
        ok, sp' := MapOne(sp, d, a, v, f, perm, w);
        GrownTrans(r, mem0, free0, sp0, mem2, head2, free2, sp, mem, freelist, free, sp');
        UntouchedTrans(mem1, free1, sp, mem2, free2, sp, mem);
      }
    }

    /** allocuvm's way out: the pages taken so far go back, and then the frame in hand. */
    method AllocFail(ghost j: Grow, ghost sp: Space, ghost n: nat, d: nat, oldsz: nat, newsz: nat, f: nat)
      returns (ghost sp': Space)
      requires j.Valid(r) && Grown(r, j.mem, j.free, j.sp, mem, freelist, free, sp) && d == sp.dir
      requires Filled(mem, j.sp.ptes, sp.ptes, j.lo, n) && n <= j.hi
      requires j.lo == Pages(oldsz) && j.hi == Pages(newsz) && newsz < KERNBASE
      requires f != 0 ==> r.Has(f) && f !in Pool(free, sp)
      requires Pool(free, sp) + (if f != 0 then {f} else {}) == Pool(j.free, j.sp)
      modifies this
      ensures Grown(r, j.mem, j.free, j.sp, mem, freelist, free, sp') && sp'.ptes == j.sp.ptes
      ensures Pool(free, sp') == Pool(j.free, j.sp)
    {
      ghost var mem1, head1, free1 := mem, freelist, free;
      var sz;
      sz, sp' := Deallocuvm(sp, d, newsz, oldsz);
      Undone(r, j, mem1, head1, free1, sp, n, mem, freelist, free, sp');
      if f != 0 {
        GiveFrame(r, j.mem, j.free, j.sp, mem, freelist, free, sp', f);
        Kfree(f);
      }
    }

    /** One round of allocuvm. */
    method AllocNext(ghost j: Grow, ghost sp: Space, ghost v: nat, d: nat, a: nat) returns (ok: bool, f: nat,
                     ghost sp': Space)
      requires j.Valid(r) && Growing(r, j, mem, freelist, free, sp, v) && j.lo <= v < j.hi && d == sp.dir && a == v * PGSIZE
      modifies this
      ensures ok ==> Growing(r, j, mem, freelist, free, sp', v + 1)
      ensures !ok ==> Grown(r, j.mem, j.free, j.sp, mem, freelist, free, sp') && Filled(mem, j.sp.ptes, sp'.ptes, j.lo, v)
      ensures !ok ==> Pool(free, sp') + (if f != 0 then {f} else {}) == Pool(j.free, j.sp)
      ensures !ok ==> (f != 0 ==> r.Has(f) && f !in Pool(free, sp')) && |j.free| < j.Cost()
    {
      InWindow(j, v);
      ghost var mem1, free1 := mem, free;
      ok, f, sp' := NewPage(j.mem, j.free, j.sp, sp, d, a, v, Zeros(), PTE_W + PTE_U, j.Tables());
      if ok {
        FilledNext(r, mem1, free1, sp, mem, j.sp.ptes, sp'.ptes, j.lo, v, f);
      } else {
        FilledKept(r, mem1, free1, sp, mem, j.sp.ptes, j.lo, v);
        AllocShort(j, free, sp', v, f);
      }
    }

    method AllocLoop(ghost j: Grow, d: nat, oldsz: nat, newsz: nat) returns (ok: bool, ghost sp': Space)
      requires j.Valid(r) && Growing(r, j, mem, freelist, free, j.sp, j.lo) && d == j.sp.dir
      requires j.lo == Pages(oldsz) && j.hi == Pages(newsz) && newsz < KERNBASE
      modifies this
      ensures Grown(r, j.mem, j.free, j.sp, mem, freelist, free, sp') && Pool(free, sp') == Pool(j.free, j.sp)
      ensures ok ==> Filled(mem, j.sp.ptes, sp'.ptes, j.lo, j.hi)
      ensures !ok ==> sp'.ptes == j.sp.ptes
      ensures ok <==> j.Cost() <= |j.free|
    {
      PagesCover(oldsz);
      PagesCover(newsz);
      var a := RoundUp(oldsz);
      ghost var v := j.lo;
      sp' := j.sp;
      while a < newsz
        invariant Growing(r, j, mem, freelist, free, sp', v) && d == sp'.dir
        invariant j.lo <= v <= j.hi && a == v * PGSIZE
        decreases j.hi - v
      {
        var f;
        ok, f, sp' := AllocNext(j, sp', v, d, a);
        if !ok {
          sp' := AllocFail(j, sp', v, d, oldsz, newsz, f);
          return;
        }
        a, v := a + PGSIZE, v + 1;
      }
      ok := true;
      AllTables(r, j, mem, sp');
    }

    /** allocuvm: zeroed user pages from oldsz, rounded up, to newsz; or 0 and no page more
        than before.  It runs out of memory exactly when there are fewer free frames than
        pages and page tables to make. */
    method Allocuvm(ghost sp: Space, d: nat, oldsz: nat, newsz: nat) returns (sz: nat, ghost ok: bool, ghost sp': Space)
      requires Valid() && Repr(r, mem, sp) && Sep(free, sp) && d == sp.dir
      requires forall v :: Pages(oldsz) <= v < Pages(newsz) && v < UPAGES ==> v !in sp.ptes
      modifies this
      ensures Grown(r, old(mem), old(free), sp, mem, freelist, free, sp') && Pool(free, sp') == Pool(old(free), sp)
      ensures sz == if !ok then 0 else if newsz < oldsz then oldsz else newsz
      ensures ok ==> Filled(mem, sp.ptes, sp'.ptes, Pages(oldsz), Pages(newsz))
      ensures !ok ==> sp'.ptes == sp.ptes
      ensures ok <==> newsz < KERNBASE && Grow(old(mem), old(free), sp, Pages(oldsz), Pages(newsz)).Cost() <= |old(free)|
    {
      sp', ok := sp, false;
      if newsz >= KERNBASE {
        return 0, ok, sp';
      }
      PagesCover(oldsz);
      PagesCover(newsz);
      if newsz < oldsz {
        return oldsz, true, sp';
      }
      ghost var j := Grow(mem, free, sp, Pages(oldsz), Pages(newsz));
      var done;
      done, sp' := AllocLoop(j, d, oldsz, newsz);
      ok := done;
      sz := if done then newsz else 0;
    }

    /** freevm's loop over the page directory, and the directory. */
    method FreeTables(ghost sp: Space, d: nat)
      requires Valid() && Bare(r, mem, sp) && Sep(free, sp) && d == sp.dir
      modifies this
      ensures Valid() && Listed(free) == Pool(old(free), sp) && Outside(old(mem), mem, Pool(old(free), sp))
    {
      ghost var mem0, free0 := mem, free;
      var i := 0;
      while i < ENTRIES
        invariant i <= ENTRIES && Closing(r, mem0, free0, sp, mem, freelist, free, i)
      {
        CloseNext(r, mem0, free0, sp, mem, freelist, free, i);
        var e := mem[d][i];
        if Present(e) {
          Kfree(FrameOf(e));
        }
        i := i + 1;
      }
      Closed(r, mem0, free0, sp, mem, freelist, free);
      Kfree(d);
    }

    /** freevm: every frame the space owns goes onto the free list, once (the list has no
        duplicates), and nothing else changes. */
    method Freevm(ghost sp: Space, d: nat)
      requires Valid() && Repr(r, mem, sp) && Sep(free, sp) && d == sp.dir
      modifies this
      ensures Valid() && Listed(free) == Pool(old(free), sp) && Outside(old(mem), mem, Pool(old(free), sp))
    {
      PagesCover(0);
      PagesCover(KERNBASE);
      var sz;
      ghost var sp1, mem0, free0 := sp, mem, free;
      sz, sp1 := Deallocuvm(sp, d, KERNBASE, 0);
      DroppedBare(r, mem0, free0, sp, mem, sp1);
      ghost var mem1, free1 := mem, free;
      FreeTables(sp1, d);
      OutsideTrans(mem0, mem1, mem, Pool(free0, sp));
    }

    /** mappages for an entry of the kernel's map. */
    method MapExtent(ghost sp: Space, d: nat, m: Kmap, ghost x: Extent, ghost w: Window)
      returns (ok: bool, ghost sp': Space, ghost n: nat)
      requires Valid() && Repr(r, mem, sp) && Sep(free, sp) && d == sp.dir
      requires x.Of(m) && Mappable(r, free, sp, x.v0, x.v1, x.f0) && x.v0 >= UPAGES && w.Has(Pdx(x.v0)) && w.Has(Pdx(x.v1))
      modifies this
      ensures Grown(r, old(mem), old(free), sp, mem, freelist, free, sp') && Pool(free, sp') == Pool(old(free), sp)
      ensures ok ==> MapsRange(sp.ptes, sp'.ptes, x.v0, x.v1 - x.v0 + 1, x.f0, x.flags)
      ensures !ok ==> free == [] && n <= x.v1 - x.v0 && Pdx(x.v0 + n) !in sp'.tables
      ensures Slack(free, sp', w) == Slack(old(free), sp, w) && Inside(sp, sp', w)
    {
      ok, sp', n := Mappages(sp, d, m.virt, m.Size(), m.start, m.perm, w);
      TakenKernel(x.v0, x.f0, n);
    }

    /** One entry of the kernel's map. */
    method SetUpNext(ghost mem0: Mem, ghost free0: seq<nat>, ghost sp: Space, d: nat, k: nat)
      returns (ok: bool, ghost sp': Space)
      requires DataOk(data) && k < 4 && SettingUp(r, data, mem0, free0, mem, freelist, free, sp, k) && d == sp.dir
      modifies this
      ensures FreeOk(r, mem, freelist, free) && Repr(r, mem, sp') && Sep(free, sp') && sp'.dir == d
      ensures Pool(free, sp') == Listed(free0) && Outside(mem0, mem, Listed(free0))
      ensures |free| - AbsentTables(sp') == |free0| - 65 && NoUserTable(sp')
      ensures ok ==> KernelTo(data, sp'.ptes, Reached(data, k + 1))
      ensures !ok ==> |free0| < 65
    {
      ghost var x := ExtentMappable(r, data, free, sp, k);
      ghost var mem1, free1, n := mem, free, 0;
      ok, sp', n := MapExtent(sp, d, Kmaps(data)[k], x, KernelTables(k));
      GrownOutside(mem0, free0, mem1, free1, sp, mem);
      KernelPays(free1, sp, free, sp', k);
      ExtentMapped(data, sp.ptes, sp', k, x, n, ok);
    }

    /** setupkvm: a space with the kernel's pages and no others, if and only if there are
        frames for the directory and 64 page tables; otherwise 0, and no frame is lost. */
    method Setupkvm() returns (d: nat, ghost sp: Space)
      requires Valid() && DataOk(data)
      modifies this
      ensures Valid() && Outside(old(mem), mem, Listed(old(free)))
      ensures d != 0 <==> |old(free)| >= 65
      ensures d != 0 ==> Repr(r, mem, sp) && Sep(free, sp) && sp.dir == d && Pool(free, sp) == Listed(old(free))
      ensures d != 0 ==> KernelTo(data, sp.ptes, VPAGES) && NoUserTable(sp) && |free| == |old(free)| - 65
      ensures d == 0 ==> Listed(free) == Listed(old(free))
    {
      ghost var mem0, free0 := mem, free;
      d := Kalloc();
      sp := EmptySpace(d);
      if d == 0 {
        return;
      }
      StartSetUp(r, data, mem0, free0, freelist, free, d);
      mem := mem[d := Zeros()];
      var k, ok := 0, true;
      while k < 4
        invariant k <= 4 && d == sp.dir && SettingUp(r, data, mem0, free0, mem, freelist, free, sp, k)
      {
        ok, sp := SetUpNext(mem0, free0, sp, d, k);
        if !ok {
          ghost var mem1 := mem;
          Freevm(sp, d);
          OutsideTrans(mem0, mem1, mem, Listed(free0));
          d := 0;
          return;
        }
        k := k + 1;
      }
      assert OwnerOk(r, mem, sp, d);
      KernelTablesThere(r, data, mem, sp);
    }

    /** The parent's entry for page v. */
    method ParentEntry(ghost p: Source, ghost n: nat, d: nat, v: nat) returns (e: nat)
      requires p.Valid(r, n) && Outside(p.mem, mem, Listed(p.free)) && v < n && d == p.sp.dir
      ensures v in p.sp.ptes && e == p.sp.ptes[v]
    {
      ParentKept(r, p, mem, n);
      ParentPage(r, p, mem, n, v);
      var t := Lookup(p.sp, d, v);
      e := mem[t][Ptx(v)];
    }

    /** One round of copyuvm. */
    method CopyNext(ghost p: Source, ghost j: Grow, ghost sp: Space, pd: nat, d: nat, a: nat, ghost v: nat)
      returns (ok: bool, ghost sp': Space)
      requires p.Valid(r, j.hi) && Copying(r, p, j, mem, freelist, free, sp, v) && j.lo == 0 && j.Valid(r)
      requires v < j.hi && pd == p.sp.dir && d == sp.dir && a == v * PGSIZE && Pool(j.free, j.sp) == Listed(p.free)
      modifies this
      ensures ok ==> Copying(r, p, j, mem, freelist, free, sp', v + 1)
      ensures !ok ==> Valid() && Repr(r, mem, sp') && Sep(free, sp') && sp'.dir == d
      ensures !ok ==> Pool(free, sp') == Pool(j.free, j.sp) && Outside(p.mem, mem, Listed(p.free))
      ensures !ok ==> |j.free| < j.Cost()
    {
      var n := PageNumber(a, v);
      var e := ParentEntry(p, j.hi, pd, n);
      ParentPage(r, p, mem, j.hi, v);
      FlagsOf(e);
      InWindow(j, v);
      ghost var mem1, free1 := mem, free;
      var f;
      ok, f, sp' := NewPage(j.mem, j.free, j.sp, sp, d, a, v, mem[FrameOf(e)], Flags(e), j.Tables());
      GrownOutside(p.mem, p.free, mem1, free1, sp, mem);
      if ok {
        CopiedNext(r, p, mem1, free1, sp, mem, j.sp.ptes, sp'.ptes, v, f, Flags(e));
      } else {
        AllocShort(j, free, sp', v, f);
        if f != 0 {
          CopyFail(p, j, sp', f);
        }
      }
    }

    /** copyuvm's way out: the frame in hand goes back. */
    method CopyFail(ghost p: Source, ghost j: Grow, ghost sp: Space, f: nat)
      requires Grown(r, j.mem, j.free, j.sp, mem, freelist, free, sp) && r.Has(f) && f !in Pool(free, sp)
      requires Pool(free, sp) + {f} == Pool(j.free, j.sp) && Pool(j.free, j.sp) == Listed(p.free)
      requires Outside(p.mem, mem, Listed(p.free))
      modifies this
      ensures Valid() && Repr(r, mem, sp) && Sep(free, sp)
      ensures Pool(free, sp) == Pool(j.free, j.sp) && Outside(p.mem, mem, Listed(p.free))
    {
      GiveFrame(r, j.mem, j.free, j.sp, mem, freelist, free, sp, f);
      Kfree(f);
    }

    method CopyLoop(ghost p: Source, ghost j: Grow, pd: nat, d: nat, sz: nat) returns (ok: bool, ghost sp: Space)
      requires p.Valid(r, j.hi) && j.Valid(r) && j.lo == 0 && j.hi == Pages(sz) && sz <= KERNBASE
      requires Copying(r, p, j, mem, freelist, free, j.sp, 0) && Pool(j.free, j.sp) == Listed(p.free)
      requires pd == p.sp.dir && d == j.sp.dir
      modifies this
      ensures Valid() && Repr(r, mem, sp) && Sep(free, sp) && sp.dir == d
      ensures Pool(free, sp) == Listed(p.free) && Outside(p.mem, mem, Listed(p.free))
      ensures ok ==> Copied(p.mem, p.sp, mem, j.sp.ptes, sp.ptes, j.hi)
      ensures ok <==> |j.free| >= j.Cost()
    {
      PagesCover(sz);
      var i := 0;
      ghost var v := 0;
      sp := j.sp;
      while i < sz
        invariant Copying(r, p, j, mem, freelist, free, sp, v) && d == sp.dir
        invariant v <= j.hi && i == v * PGSIZE
        decreases j.hi - v
      {
        ok, sp := CopyNext(p, j, sp, pd, d, i, v);
        if !ok {
          return;
        }
        i, v := i + PGSIZE, v + 1;
      }
      ok := true;
      AllTables(r, j, mem, sp);
    }

    /** copyuvm: a space with the kernel's pages and, below sz, pages of its own with the
        parent's flags and bytes; or 0 and no frame lost.  Either way the parent's space and
        pages stay.  It runs out of memory exactly when the directory, the page tables and
        the pages are more than the free frames. */
    method Copyuvm(ghost ps: Space, pd: nat, sz: nat) returns (d: nat, ghost sp: Space)
      requires Valid() && DataOk(data) && Repr(r, mem, ps) && Sep(free, ps) && pd == ps.dir && sz <= KERNBASE
      requires forall v :: 0 <= v < Pages(sz) ==> v in ps.ptes
      modifies this
      ensures Valid() && Repr(r, mem, ps) && Outside(old(mem), mem, Listed(old(free)))
      ensures d != 0 <==> |old(free)| >= 65 + Pages(sz) + TablesFor(Pages(sz))
      ensures d != 0 ==> Repr(r, mem, sp) && Sep(free, sp) && sp.dir == d && Pool(free, sp) == Listed(old(free))
      ensures d != 0 ==> Child(data, old(mem), ps, mem, sp, Pages(sz))
      ensures d == 0 ==> Listed(free) == Listed(old(free))
    {
      PagesCover(sz);
      ghost var p := Source(mem, free, ps);
      d, sp := Setupkvm();
      if d != 0 {
        ghost var j := Grow(mem, free, sp, 0, Pages(sz));
        StartCopy(r, p, j, freelist, data);
        var ok;
        ok, sp := CopyLoop(p, j, pd, d, sz);
        if ok {
          CopiedChild(r, data, p, j, mem, free, sp);
        } else {
          ghost var mem1 := mem;
          Freevm(sp, d);
          OutsideTrans(p.mem, mem1, mem, Listed(p.free));
          d := 0;
        }
      }
      ParentKept(r, p, mem, Pages(sz));
    }

    constructor (r: Range, data: nat, mem: Mem)
      requires forall f :: r.Has(f) ==> f in mem && |mem[f]| == ENTRIES
      ensures this.r == r && this.data == data && Valid() && free == []
    {
      this.r, this.data, this.mem := r, data, mem;
      freelist, free := 0, [];
    }

    /** freerange: the whole pages from vstart to vend onto the free list. */
    method Freerange(vstart: nat, vend: nat)
      requires Valid() && KERNBASE <= vstart
      requires forall f :: vstart <= Ka(f) && Ka(f) + PGSIZE <= vend ==> r.Has(f) && f !in free
      modifies this
      ensures Valid()
      ensures forall f :: f in free <==> f in old(free) || (vstart <= Ka(f) && Ka(f) + PGSIZE <= vend)
    {
      var p := RoundUp(vstart);
      ghost var f0, f := Pages(vstart) - UPAGES, Pages(vstart) - UPAGES;
      PagesCover(vstart);
      while p + PGSIZE <= vend
        invariant f0 <= f && p == Ka(f) && Valid()
        invariant forall g :: g in free <==> g in old(free) || (f0 <= g < f)
        invariant forall g :: f0 <= g < f ==> Ka(g) + PGSIZE <= vend
        decreases vend - p
      {
        Kfree((p - KERNBASE) / PGSIZE);
        p, f := p + PGSIZE, f + 1;
      }
    }
  }

  // ----- the whole machine -------------------------------------------------

  /** A space of the system, apart from the free list, the others and the other spaces. */
  ghost predicate SpaceOk(r: Range, mem: Mem, free: seq<nat>, others: set<nat>, spaces: map<nat, Space>, d: nat)
    requires d in spaces
  {
    && spaces[d].dir == d && Repr(r, mem, spaces[d]) && Sep(free, spaces[d])
    && (forall f :: f in spaces[d].owner ==> f !in others)
    && (forall e :: e in spaces && e != d ==> Apart(spaces[d], spaces[e]))
  }

  ghost predicate Apart(sp: Space, sp': Space) {
    forall f :: f in sp.owner ==> f !in sp'.owner
  }

  /** Every frame is on the free list, in one space, or with someone else in the kernel
      (`others`: kernel stacks, pipes), and never in two of these places. */
  ghost predicate System(r: Range, mem: Mem, head: nat, free: seq<nat>, spaces: map<nat, Space>, others: set<nat>) {
    && FreeOk(r, mem, head, free)
    && (forall d {:trigger SpaceOk(r, mem, free, others, spaces, d)} ::
          d in spaces ==> SpaceOk(r, mem, free, others, spaces, d))
    && (forall f :: f in free ==> f !in others)
    && Covered(r, free, spaces, others)
  }

  ghost predicate Covered(r: Range, free: seq<nat>, spaces: map<nat, Space>, others: set<nat>) {
    forall f :: r.Has(f) ==> f in free || f in others || Owned(spaces, f)
  }

  ghost predicate Owned(spaces: map<nat, Space>, f: nat) {
    exists d :: d in spaces && f in spaces[d].owner
  }

  lemma CoveredReplace(r: Range, free: seq<nat>, spaces: map<nat, Space>, others: set<nat>, d: nat, free': seq<nat>,
                       sp': Space)
    requires Covered(r, free, spaces, others) && d in spaces && Pool(free', sp') == Pool(free, spaces[d])
    ensures Covered(r, free', spaces[d := sp'], others)
  {
    var spaces' := spaces[d := sp'];
    forall f | r.Has(f) && f !in free' && f !in others ensures Owned(spaces', f) {
      if f in sp'.owner {
        assert d in spaces' && f in spaces'[d].owner;
      } else {
        assert f !in Pool(free, spaces[d]);
        var e :| e in spaces && f in spaces[e].owner;
        assert e in spaces' && f in spaces'[e].owner;
      }
    }
  }

  /** One space and the free list change, between themselves. */
  lemma SystemReplace(r: Range, mem: Mem, head: nat, free: seq<nat>, spaces: map<nat, Space>, others: set<nat>, d: nat,
                      mem': Mem, head': nat, free': seq<nat>, sp': Space)
    requires System(r, mem, head, free, spaces, others) && d in spaces
    requires FreeOk(r, mem', head', free') && Repr(r, mem', sp') && Sep(free', sp') && sp'.dir == d
    requires Pool(free', sp') == Pool(free, spaces[d]) && Outside(mem, mem', Pool(free, spaces[d]))
    ensures System(r, mem', head', free', spaces[d := sp'], others)
  {
    var spaces' := spaces[d := sp'];
    assert SpaceOk(r, mem, free, others, spaces, d);
    forall f | f in free' || f in sp'.owner ensures f in free || f in spaces[d].owner {
      assert f in Pool(free', sp');
    }
    forall e | e in spaces && e != d ensures SpaceOk(r, mem', free', others, spaces', e) && Apart(sp', spaces[e]) {
      assert SpaceOk(r, mem, free, others, spaces, e) && Apart(spaces[e], spaces[d]);
      ReprFrame(r, mem, mem', spaces[e]);
      assert forall a :: a in spaces && a != e ==> Apart(spaces[e], spaces[a]);
    }
    CoveredReplace(r, free, spaces, others, d, free', sp');
  }

  lemma SystemAdd(r: Range, mem: Mem, head: nat, free: seq<nat>, spaces: map<nat, Space>, others: set<nat>, d: nat,
                  mem': Mem, head': nat, free': seq<nat>, sp': Space)
    requires System(r, mem, head, free, spaces, others)
    requires FreeOk(r, mem', head', free') && Repr(r, mem', sp') && Sep(free', sp') && sp'.dir == d
    requires Pool(free', sp') == Listed(free) && Outside(mem, mem', Listed(free))
    ensures d !in spaces && System(r, mem', head', free', spaces[d := sp'], others)
  {
    var spaces' := spaces[d := sp'];
    forall f | f in free' || f in sp'.owner ensures f in free {
      assert f in Pool(free', sp');
    }
    forall e | e in spaces ensures e != d && SpaceOk(r, mem', free', others, spaces', e) && Apart(sp', spaces[e]) {
      assert SpaceOk(r, mem, free, others, spaces, e);
      ReprFrame(r, mem, mem', spaces[e]);
      assert forall a :: a in spaces && a != e ==> Apart(spaces[e], spaces[a]);
    }
    forall f | r.Has(f) && f !in free' && f !in others ensures Owned(spaces', f) {
      if f in Listed(free) {
        assert f in Pool(free', sp') && d in spaces' && f in spaces'[d].owner;
      } else {
        var e :| e in spaces && f in spaces[e].owner;
        assert e in spaces' && f in spaces'[e].owner;
      }
    }
  }

  lemma SystemRemove(r: Range, mem: Mem, head: nat, free: seq<nat>, spaces: map<nat, Space>, others: set<nat>, d: nat,
                     mem': Mem, head': nat, free': seq<nat>)
    requires System(r, mem, head, free, spaces, others) && d in spaces
    requires FreeOk(r, mem', head', free') && Listed(free') == Pool(free, spaces[d])
    requires Outside(mem, mem', Pool(free, spaces[d]))
    ensures System(r, mem', head', free', spaces - {d}, others)
  {
    var spaces' := spaces - {d};
    assert SpaceOk(r, mem, free, others, spaces, d);
    forall f ensures f in free' <==> f in free || f in spaces[d].owner {
      assert f in Listed(free') <==> f in Pool(free, spaces[d]);
    }
    forall e | e in spaces' ensures SpaceOk(r, mem', free', others, spaces', e) {
      assert SpaceOk(r, mem, free, others, spaces, e) && Apart(spaces[e], spaces[d]);
      ReprFrame(r, mem, mem', spaces[e]);
    }
    forall f | r.Has(f) && f !in free' && f !in others ensures Owned(spaces', f) {
      var e :| e in spaces && f in spaces[e].owner;
      assert e in spaces' && f in spaces'[e].owner;
    }
  }

  lemma SystemSame(r: Range, mem: Mem, head: nat, free: seq<nat>, spaces: map<nat, Space>, others: set<nat>,
                   mem': Mem, head': nat, free': seq<nat>, others': set<nat>)
    requires System(r, mem, head, free, spaces, others) && FreeOk(r, mem', head', free')
    requires Listed(free') + others' == Listed(free) + others && (forall f :: f in free' ==> f !in others')
    requires Outside(mem, mem', Listed(free) + others)
    ensures System(r, mem', head', free', spaces, others')
  {
    forall f ensures f in free' || f in others' <==> f in free || f in others {
      assert f in Listed(free') + others' <==> f in Listed(free) + others;
    }
    forall e | e in spaces ensures SpaceOk(r, mem', free', others', spaces, e) {
      assert SpaceOk(r, mem, free, others, spaces, e);
      ReprFrame(r, mem, mem', spaces[e]);
    }
  }

  lemma UntouchedOutside(mem: Mem, mem': Mem, free: seq<nat>, sp: Space)
    requires Untouched(mem, mem', free, sp)
    ensures Outside(mem, mem', Pool(free, sp))
  {
  }

  lemma KeptOutside(mem: Mem, mem': Mem, free: seq<nat>, sp: Space, sp': Space)
    requires Kept(mem, mem', free, sp, sp')
    ensures Outside(mem, mem', Pool(free, sp))
  {
  }

  /** The user pages are exactly those below a process's size. */
  ghost predicate InStep(sp: Space, sz: nat) {
    forall v :: 0 <= v < UPAGES ==> (v in sp.ptes <==> v < Pages(sz))
  }

  lemma PagesGrow(sz: nat, sz': nat)
    requires sz <= sz'
    ensures Pages(sz) <= Pages(sz')
  {
  }

  lemma FilledInStep(mem: Mem, sp: Space, sp': Space, sz: nat, newsz: nat)
    requires InStep(sp, sz) && Filled(mem, sp.ptes, sp'.ptes, Pages(sz), Pages(newsz)) && sz <= newsz < KERNBASE
    ensures InStep(sp', newsz)
  {
  }

  lemma ShrinkInStep(sp: Space, sp': Space, sz: nat, n: int)
    requires InStep(sp, sz) && sz < KERNBASE && -KERNBASE <= n < 0 && Dropped(sp, sp', Pages((sz + n) % WORD), Pages(sz))
    ensures InStep(sp', if sz + n >= 0 then sz + n else sz) && (sz + n == 0 ==> !InStep(sp', sz))
  {
    if sz + n < 0 {
      PagesGrow(sz, (sz + n) % WORD);
    } else if sz + n == 0 {
      assert 0 !in sp'.ptes;
    }
  }

  /** The kernel image ends at address end; kinit2 takes over from kinit1 at mid. */
  lemma BootFrames(end: nat, mid: nat, f: nat)
    requires KERNBASE < end <= mid <= KERNBASE + PHYSTOP && mid % PGSIZE == 0
    ensures Pages(end) - UPAGES <= f < PHYSTOP / PGSIZE <==>
            (end <= Ka(f) && Ka(f) + PGSIZE <= mid) || (mid <= Ka(f) && Ka(f) + PGSIZE <= KERNBASE + PHYSTOP)
    ensures Pages(end) > UPAGES
  {
  }

  /** The address spaces of all processes over one machine.  Every call, whichever way it
      ends, keeps the frames partitioned. */
  class Kernel {
    const m: Machine
    ghost var spaces: map<nat, Space>
    ghost var others: set<nat>

    ghost predicate Valid()
      reads this, m
    {
      DataOk(m.data) && System(m.r, m.mem, m.freelist, m.free, spaces, others)
    }

    /** kinit1 and kinit2: at first every frame is free.  `end` is the end of the kernel
        image, `mid` where the second call takes over. */
    constructor (end: nat, mid: nat, data: nat, mem: Mem)
      requires KERNBASE < end <= mid <= KERNBASE + PHYSTOP && mid % PGSIZE == 0 && DataOk(data)
      requires forall f :: f < PHYSTOP / PGSIZE ==> f in mem && |mem[f]| == ENTRIES
      ensures Valid() && spaces == map[] && others == {}
    {
      forall f: nat { BootFrames(end, mid, f); }
      var r := Range(Pages(end) - UPAGES, PHYSTOP / PGSIZE);
      m := new Machine(r, data, mem);
      spaces, others := map[], {};
      new;
      m.Freerange(end, mid);
      m.Freerange(mid, KERNBASE + PHYSTOP);
    }

    method Setupkvm() returns (d: nat)
      requires Valid()
      modifies this, m
      ensures Valid() && others == old(others)
      ensures d != 0 <==> |old(m.free)| >= 65
      ensures d == 0 ==> spaces == old(spaces)
      ensures d != 0 ==> d !in old(spaces) && d in spaces && spaces == old(spaces)[d := spaces[d]]
      ensures d != 0 ==> KernelTo(m.data, spaces[d].ptes, VPAGES)
    {
      ghost var sp;
      ghost var mem, head, free := m.mem, m.freelist, m.free;
      d, sp := m.Setupkvm();
      if d == 0 {
        SystemSame(m.r, mem, head, free, spaces, others, m.mem, m.freelist, m.free, others);
      } else {
        SystemAdd(m.r, mem, head, free, spaces, others, d, m.mem, m.freelist, m.free, sp);
        spaces := spaces[d := sp];
      }
    }

    method Allocuvm(d: nat, oldsz: nat, newsz: nat) returns (sz: nat)
      requires Valid() && d in spaces
      requires forall v :: Pages(oldsz) <= v < Pages(newsz) && v < UPAGES ==> v !in spaces[d].ptes
      modifies this, m
      ensures Valid() && others == old(others) && d in spaces && spaces == old(spaces)[d := spaces[d]]
      ensures sz == 0 ==> spaces[d].ptes == old(spaces[d].ptes)
      ensures sz != 0 ==> newsz < KERNBASE && sz == if newsz < oldsz then oldsz else newsz
      ensures sz != 0 ==> Filled(m.mem, old(spaces[d].ptes), spaces[d].ptes, Pages(oldsz), Pages(newsz))
    {
      ghost var sp', ok;
      ghost var mem, head, free, sp := m.mem, m.freelist, m.free, spaces[d];
      assert SpaceOk(m.r, mem, free, others, spaces, d);
      sz, ok, sp' := m.Allocuvm(sp, d, oldsz, newsz);
      UntouchedOutside(mem, m.mem, free, sp);
      SystemReplace(m.r, mem, head, free, spaces, others, d, m.mem, m.freelist, m.free, sp');
      spaces := spaces[d := sp'];
    }

    method Deallocuvm(d: nat, oldsz: nat, newsz: nat) returns (sz: nat)
      requires Valid() && d in spaces && oldsz <= KERNBASE
      modifies this, m
      ensures Valid() && others == old(others) && d in spaces && spaces == old(spaces)[d := spaces[d]]
      ensures sz == if newsz >= oldsz then oldsz else newsz
      ensures Dropped(old(spaces[d]), spaces[d], Pages(newsz), Pages(oldsz))
      ensures m.free == Freed(old(spaces[d].ptes), Pages(newsz), Pages(oldsz)) + old(m.free)
    {
      ghost var sp';
      ghost var mem, head, free, sp := m.mem, m.freelist, m.free, spaces[d];
      assert SpaceOk(m.r, mem, free, others, spaces, d);
      sz, sp' := m.Deallocuvm(sp, d, oldsz, newsz);
      KeptOutside(mem, m.mem, free, sp, sp');
      SystemReplace(m.r, mem, head, free, spaces, others, d, m.mem, m.freelist, m.free, sp');
      spaces := spaces[d := sp'];
    }

    method Copyuvm(pd: nat, sz: nat) returns (d: nat)
      requires Valid() && pd in spaces && sz <= KERNBASE && forall v :: 0 <= v < Pages(sz) ==> v in spaces[pd].ptes
      modifies this, m
      ensures Valid() && others == old(others)
      ensures d != 0 <==> |old(m.free)| >= 65 + Pages(sz) + TablesFor(Pages(sz))
      ensures d == 0 ==> spaces == old(spaces)
      ensures d != 0 ==> d !in old(spaces) && d in spaces && spaces == old(spaces)[d := spaces[d]]
      ensures d != 0 ==> Child(m.data, old(m.mem), old(spaces[pd]), m.mem, spaces[d], Pages(sz))
    {
      ghost var sp;
      ghost var mem, head, free := m.mem, m.freelist, m.free;
      assert SpaceOk(m.r, mem, free, others, spaces, pd);
      d, sp := m.Copyuvm(spaces[pd], pd, sz);
      if d == 0 {
        SystemSame(m.r, mem, head, free, spaces, others, m.mem, m.freelist, m.free, others);
      } else {
        SystemAdd(m.r, mem, head, free, spaces, others, d, m.mem, m.freelist, m.free, sp);
        spaces := spaces[d := sp];
      }
    }

    method Freevm(d: nat)
      requires Valid() && d in spaces
      modifies this, m
      ensures Valid() && others == old(others) && spaces == old(spaces) - {d}
      ensures forall f :: f in m.free <==> f in old(m.free) || f in old(spaces[d].owner)
    {
      ghost var mem, head, free, sp := m.mem, m.freelist, m.free, spaces[d];
      assert SpaceOk(m.r, mem, free, others, spaces, d);
      m.Freevm(sp, d);
      SystemRemove(m.r, mem, head, free, spaces, others, d, m.mem, m.freelist, m.free);
      forall f ensures f in m.free <==> f in free || f in sp.owner {
        assert f in Listed(m.free) <==> f in Pool(free, sp);
      }
      spaces := spaces - {d};
    }

    /** kalloc for someone else in the kernel. */
    method Kalloc() returns (f: nat)
      requires Valid()
      modifies this, m
      ensures Valid() && spaces == old(spaces) && (f == 0 <==> old(m.free) == [])
      ensures others == if f == 0 then old(others) else old(others) + {f}
    {
      ghost var mem, head, free := m.mem, m.freelist, m.free;
      f := m.Kalloc();
      if f != 0 {
        SystemSame(m.r, mem, head, free, spaces, others, m.mem, m.freelist, m.free, others + {f});
        others := others + {f};
      }
    }

    method Kfree(f: nat)
      requires Valid() && f in others && m.r.Has(f)
      modifies this, m
      ensures Valid() && spaces == old(spaces) && others == old(others) - {f} && f in m.free
    {
      ghost var mem, head, free := m.mem, m.freelist, m.free;
      m.Kfree(f);
      SystemSame(m.r, mem, head, free, spaces, others, m.mem, m.freelist, m.free, others - {f});
      others := others - {f};
    }

    method Shrink(d: nat, sz: nat, n: int) returns (newsz: nat)
      requires Valid() && d in spaces && sz < KERNBASE && InStep(spaces[d], sz) && -KERNBASE <= n < 0
      modifies this, m
      ensures Valid() && others == old(others) && d in spaces && spaces == old(spaces)[d := spaces[d]]
      ensures newsz == if sz + n >= 0 then sz + n else sz
      ensures InStep(spaces[d], newsz) && (sz + n == 0 ==> !InStep(spaces[d], sz))
    {
      ghost var sp := spaces[d];
      newsz := Deallocuvm(d, sz, (sz + n) % WORD);
      ShrinkInStep(sp, spaces[d], sz, n);
    }

    /** growproc.  A shrink to size 0 is done and then reported as a failure, which leaves
        the process a size without the pages; in every other case the size stays in step. */
    method Growproc(d: nat, sz: nat, n: int) returns (ok: bool, sz': nat)
      requires Valid() && d in spaces && sz < KERNBASE && InStep(spaces[d], sz) && -KERNBASE <= n < KERNBASE
      modifies this, m
      ensures Valid() && others == old(others) && d in spaces && spaces == old(spaces)[d := spaces[d]] && sz' < KERNBASE
      ensures sz' == if ok && sz + n >= 0 then sz + n else sz
      ensures n >= 0 || sz + n != 0 ==> InStep(spaces[d], sz')
      ensures n < 0 && sz + n == 0 ==> !InStep(spaces[d], sz')
      ensures n <= 0 ==> (ok <==> n == 0 || (sz != 0 && sz + n != 0))
    {
      sz' := sz;
      if n > 0 {
        ghost var sp := spaces[d];
        var a := Allocuvm(d, sz, sz + n);
        if a == 0 {
          return false, sz';
        }
        FilledInStep(m.mem, sp, spaces[d], sz, sz + n);
        sz' := a;
      } else if n < 0 {
        var a := Shrink(d, sz, n);
        if a == 0 {
          return false, sz';
        }
        sz' := a;
      }
      ok := true;
    }
  }
}
