/**
 Pipes (pipe.c): the ring of PIPESIZE bytes with its 32-bit counters, and any number of
 readers and writers taking turns under the pipe's lock.

 sleep gives up the lock and goes to sleep in one step, and wakeup wakes all sleepers in
 one step; module SleepLock takes both apart.
 */
module Pipe {
  import opened Common

  const PIPESIZE := 512

  // ----- the ring ----------------------------------------------------------

  datatype Ring = Ring(data: seq<nat>, nread: nat, nwrite: nat) {
    /** nwrite - nread, in 32 bits. */
    function Count(): nat {
      (nwrite - nread) % WORD
    }

    ghost predicate Valid() {
      |data| == PIPESIZE && nread < WORD && nwrite < WORD && Count() <= PIPESIZE
    }

    predicate Full() {
      nwrite == (nread + PIPESIZE) % WORD
    }

    predicate Empty() {
      nread == nwrite
    }

    ghost function Contents(): seq<nat>
      requires Valid()
    {
      seq(Count(), i requires 0 <= i < Count() => data[(nread + i) % PIPESIZE])
    }
  }

  function Put(r: Ring, b: nat): Ring
    requires |r.data| == PIPESIZE
  {
    Ring(r.data[r.nwrite % PIPESIZE := b], r.nread, (r.nwrite + 1) % WORD)
  }

  function Head(r: Ring): nat
    requires |r.data| == PIPESIZE
  {
    r.data[r.nread % PIPESIZE]
  }

  function Drop(r: Ring): Ring {
    r.(nread := (r.nread + 1) % WORD)
  }

  lemma CountIs(r: Ring)
    requires r.nread < WORD && r.nwrite < WORD
    ensures r.Count() == if r.nread <= r.nwrite then r.nwrite - r.nread else r.nwrite + WORD - r.nread
  {
  }

  /** Full and empty are what they say, also when a counter has wrapped. */
  lemma FullEmpty(r: Ring)
    requires r.Valid()
    ensures r.Full() <==> |r.Contents()| == PIPESIZE
    ensures r.Empty() <==> r.Contents() == []
  {
    CountIs(r);
  }

  lemma WrapIndex(x: nat, i: nat)
    ensures (x % WORD + i) % PIPESIZE == (x + i) % PIPESIZE
  {
    assert x == x / WORD * WORD + x % WORD;
    assert x + i == x % WORD + i + PIPESIZE * (x / WORD * (WORD / PIPESIZE));
    ModPlus(x % WORD + i, x / WORD * (WORD / PIPESIZE));
  }

  lemma ModPlus(a: nat, k: nat)
    ensures (a + PIPESIZE * k) % PIPESIZE == a % PIPESIZE
  {
  }

  lemma NearIndex(x: nat, i: nat, j: nat)
    requires i < j < i + PIPESIZE
    ensures (x + i) % PIPESIZE != (x + j) % PIPESIZE
  {
  }

  /** pipewrite's store appends a byte. */
  lemma PutAppends(r: Ring, b: nat)
    requires r.Valid() && !r.Full()
    ensures Put(r, b).Valid() && Put(r, b).Contents() == r.Contents() + [b]
  {
    var r', n := Put(r, b), r.Count();
    FullEmpty(r);
    CountIs(r);
    CountIs(r');
    assert r'.Count() == n + 1;
    assert (r.nread + n) % WORD == r.nwrite;
    WrapIndex(r.nread + n, 0);
    forall i | 0 <= i < n ensures r'.Contents()[i] == r.Contents()[i] {
      NearIndex(r.nread, i, n);
    }
  }

  lemma TakeOne(taken: seq<nat>, rest: seq<nat>, b: nat, more: seq<nat>)
    requires rest == [b] + more
    ensures taken + rest == taken + [b] + more
  {
  }

  /** piperead's load takes the first byte. */
  lemma DropTakes(r: Ring)
    requires r.Valid() && !r.Empty()
    ensures Drop(r).Valid() && r.Contents() == [Head(r)] + Drop(r).Contents()
  {
    var r', n := Drop(r), r.Count();
    FullEmpty(r);
    CountIs(r);
    CountIs(r');
    assert r'.Count() == n - 1;
    forall i | 0 <= i < n - 1 ensures r'.Contents()[i] == r.Contents()[i + 1] {
      WrapIndex(r.nread + 1, i);
    }
  }

  /** The copying loops, on the structure itself. */
  class Buffer {
    const data: array<nat>
    var nread: nat
    var nwrite: nat

    ghost function Value(): Ring
      reads this, data
    {
      Ring(data[..], nread, nwrite)
    }

    constructor ()
      ensures Value().Valid() && Value().Contents() == [] && fresh(data)
    {
      data := new nat[PIPESIZE];
      nread, nwrite := 0, 0;
    }

    /** pipewrite's loop, until the ring is full or the bytes are in. */
    method Fill(addr: seq<nat>, i: nat) returns (i': nat)
      requires Value().Valid() && i <= |addr|
      modifies this`nwrite, data
      ensures Value().Valid() && i <= i' <= |addr|
      ensures Value().Contents() == old(Value().Contents()) + addr[i..i']
      ensures i' == |addr| || |Value().Contents()| == PIPESIZE
    {
      i' := i;
      while i' < |addr| && nwrite != (nread + PIPESIZE) % WORD
        invariant i <= i' <= |addr| && Value().Valid() && nread == old(nread)
        invariant Value().Contents() == old(Value().Contents()) + addr[i..i']
      {
        ghost var r := Value();
        PutAppends(r, addr[i']);
        data[nwrite % PIPESIZE] := addr[i'];
        nwrite := (nwrite + 1) % WORD;
        assert Value() == Put(r, addr[i']);
        assert addr[i..i' + 1] == addr[i..i'] + [addr[i']];
        i' := i' + 1;
      }
      FullEmpty(Value());
    }

    /** piperead's loop, until the ring is empty or n bytes are out. */
    method Drain(n: nat) returns (dst: seq<nat>)
      requires Value().Valid()
      modifies this`nread
      ensures Value().Valid() && old(Value().Contents()) == dst + Value().Contents()
      ensures |dst| <= n && (|dst| == n || Value().Contents() == [])
    {
      dst := [];
      ghost var all := Value().Contents();
      while |dst| < n && nread != nwrite
        invariant Value().Valid() && |dst| <= n && all == dst + Value().Contents()
        decreases n - |dst|
      {
        ghost var r := Value();
        DropTakes(r);
        var b := data[nread % PIPESIZE];
        nread := (nread + 1) % WORD;
        assert Value() == Drop(r);
        TakeOne(dst, r.Contents(), b, Drop(r).Contents());
        dst := dst + [b];
      }
      FullEmpty(Value());
    }
  }

  // ----- readers and writers -----------------------------------------------

  /** Where a process is, and its arguments: the bytes to write and how many are in, the
      number of bytes to read and those got so far. */
  datatype Pc =
    | Out
    | WEnter(src: seq<nat>)
    | WLoop(src: seq<nat>, i: nat)
    | WWakeFull(src: seq<nat>, i: nat)
    | WSleep(src: seq<nat>, i: nat)
    | WAsleep(src: seq<nat>, i: nat)
    | WWakeLast
    | WExit
    | REnter(n: nat)
    | RTest(n: nat)
    | RAsleep(n: nat)
    | RCopy(n: nat, got: seq<nat>)
    | RWake(got: seq<nat>)
    | RExit(got: seq<nat>)

  predicate HasLock(c: Pc) {
    c.WLoop? || c.WWakeFull? || c.WSleep? || c.WWakeLast? || c.WExit? || c.RTest? || c.RCopy? || c.RWake? || c.RExit?
  }

  predicate Writer(c: Pc) {
    c.WEnter? || c.WLoop? || c.WWakeFull? || c.WSleep? || c.WAsleep? || c.WWakeLast? || c.WExit?
  }

  predicate Reader(c: Pc) {
    c.REnter? || c.RTest? || c.RAsleep? || c.RCopy? || c.RWake? || c.RExit?
  }

  /** `written`, `taken` and `returned` are histories: the bytes put into the ring, taken out
      of it, and handed to the callers of piperead. */
  datatype State = State(
    pc: seq<Pc>, ring: Ring, readopen: bool, writeopen: bool, lock: Option<nat>, asleepR: set<nat>, asleepW: set<nat>,
    written: seq<nat>, taken: seq<nat>, returned: seq<nat>)

  datatype Label =
    | StartWrite(p: nat, src: seq<nat>)
    | StartRead(p: nat, n: nat)
    | Run(p: nat)
    | QuitWrite(p: nat)        // pipewrite returns -1: no reader is left, or the process was killed
    | QuitRead(p: nat)         // piperead returns -1: the process was killed
    | CloseWrite
    | CloseRead
    | Kill(q: nat)             // kill makes a sleeping process runnable

  predicate Init(s: State) {
    && (forall p :: 0 <= p < |s.pc| ==> s.pc[p] == Out)
    && |s.ring.data| == PIPESIZE && s.ring.nread == s.ring.nwrite == 0 && s.readopen && s.writeopen
    && s.lock == None && s.asleepR == {} && s.asleepW == {} && s.written == s.taken == s.returned == []
  }

  function Go(s: State, p: nat, c: Pc): State
    requires p < |s.pc|
  {
    s.(pc := s.pc[p := c])
  }

  predicate CanRun(s: State, p: nat) {
    && p < |s.pc| && |s.ring.data| == PIPESIZE
    && match s.pc[p]
       case Out => false
       case WEnter(_) => s.lock == None
       case REnter(_) => s.lock == None
       case WAsleep(_, _) => s.lock == None && p !in s.asleepW
       case RAsleep(_) => s.lock == None && p !in s.asleepR
       case WLoop(src, i) => i < |src| && s.ring.Full() ==> s.readopen
       case _ => true
  }

  function DoRun(s: State, p: nat): State
    requires CanRun(s, p)
  {
    match s.pc[p]
    case WEnter(src) => Go(s, p, WLoop(src, 0)).(lock := Some(p))
    case WLoop(src, i) =>
      if i >= |src| then Go(s, p, WWakeLast)
      else if s.ring.Full() then Go(s, p, WWakeFull(src, i))
      else Go(s, p, WLoop(src, i + 1)).(ring := Put(s.ring, src[i]), written := s.written + [src[i]])
    case WWakeFull(src, i) => Go(s, p, WSleep(src, i)).(asleepR := {})
    case WSleep(src, i) => Go(s, p, WAsleep(src, i)).(asleepW := s.asleepW + {p}, lock := None)
    case WAsleep(src, i) => Go(s, p, WLoop(src, i)).(lock := Some(p))
    case WWakeLast => Go(s, p, WExit).(asleepR := {})
    case WExit => Go(s, p, Out).(lock := None)
    case REnter(n) => Go(s, p, RTest(n)).(lock := Some(p))
    case RTest(n) =>
      if s.ring.Empty() && s.writeopen then Go(s, p, RAsleep(n)).(asleepR := s.asleepR + {p}, lock := None)
      else Go(s, p, RCopy(n, []))
    case RAsleep(n) => Go(s, p, RTest(n)).(lock := Some(p))
    case RCopy(n, got) =>
      if |got| < n && !s.ring.Empty()
      then Go(s, p, RCopy(n, got + [Head(s.ring)])).(ring := Drop(s.ring), taken := s.taken + [Head(s.ring)])
      else Go(s, p, RWake(got))
    case RWake(got) => Go(s, p, RExit(got)).(asleepW := {})
    case RExit(got) => Go(s, p, Out).(lock := None, returned := s.returned + got)
  }

  predicate Enabled(s: State, l: Label) {
    match l
    case StartWrite(p, _) => p < |s.pc| && s.pc[p] == Out && s.writeopen
    case StartRead(p, _) => p < |s.pc| && s.pc[p] == Out && s.readopen
    case Run(p) => CanRun(s, p)
    case QuitWrite(p) => p < |s.pc| && s.pc[p].WLoop? && s.pc[p].i < |s.pc[p].src| && s.ring.Full()
    case QuitRead(p) => p < |s.pc| && s.pc[p].RTest? && s.ring.Empty() && s.writeopen
    case CloseWrite => s.lock == None && s.writeopen && forall p :: 0 <= p < |s.pc| ==> !Writer(s.pc[p])
    case CloseRead => s.lock == None && s.readopen && forall p :: 0 <= p < |s.pc| ==> !Reader(s.pc[p])
    case Kill(q) => q in s.asleepR || q in s.asleepW
  }

  function Apply(s: State, l: Label): State
    requires Enabled(s, l)
  {
    match l
    case StartWrite(p, src) => Go(s, p, WEnter(src))
    case StartRead(p, n) => Go(s, p, REnter(n))
    case Run(p) => DoRun(s, p)
    case QuitWrite(p) => Go(s, p, Out).(lock := None)
    case QuitRead(p) => Go(s, p, Out).(lock := None)
    case CloseWrite => s.(writeopen := false, asleepR := {})
    case CloseRead => s.(readopen := false, asleepW := {})
    case Kill(q) => s.(asleepR := s.asleepR - {q}, asleepW := s.asleepW - {q})
  }

  ghost predicate IsRun(r: seq<State>, ls: seq<Label>) {
    && |r| == |ls| + 1 && Init(r[0])
    && (forall i :: 0 <= i < |ls| ==> Enabled(r[i], ls[i]) && r[i + 1] == Apply(r[i], ls[i]))
  }

  // ----- invariants --------------------------------------------------------

  ghost predicate LockOk(s: State) {
    && (forall p :: 0 <= p < |s.pc| ==> (HasLock(s.pc[p]) <==> s.lock == Some(p)))
    && (s.lock.Some? ==> s.lock.value < |s.pc|)
  }

  /** The place of the process in its critical section. */
  ghost function Holder(s: State): Pc {
    if s.lock.Some? && s.lock.value < |s.pc| then s.pc[s.lock.value] else Out
  }

  ghost function Held(c: Pc): seq<nat> {
    match c
    case RCopy(_, got) => got
    case RWake(got) => got
    case RExit(got) => got
    case _ => []
  }

  ghost predicate DataOk(s: State) {
    && s.ring.Valid() && s.written == s.taken + s.ring.Contents()
    && s.taken == s.returned + Held(Holder(s))
  }

  ghost predicate OpenOk(s: State) {
    && (!s.writeopen ==> forall p :: 0 <= p < |s.pc| ==> !Writer(s.pc[p]))
    && (!s.readopen ==> forall p :: 0 <= p < |s.pc| ==> !Reader(s.pc[p]))
    && (forall p :: p in s.asleepR ==> p < |s.pc| && s.pc[p].RAsleep?)
    && (forall p :: p in s.asleepW ==> p < |s.pc| && s.pc[p].WAsleep?)
  }

  ghost predicate WritersOk(s: State) {
    && (s.asleepW != {} ==> s.readopen && (s.ring.Full() || Holder(s).RCopy? || Holder(s).RWake?))
    && (Holder(s).WWakeFull? || Holder(s).WSleep? ==> s.ring.Full() && s.readopen)
    && (Holder(s).RExit? ==> s.asleepW == {})
  }

  ghost predicate ReadersOk(s: State) {
    && (s.asleepR != {} ==> s.writeopen && (s.ring.Empty() || Holder(s).WLoop? || Holder(s).WWakeFull? || Holder(s).WWakeLast?))
    && (Holder(s).WSleep? || Holder(s).WExit? ==> s.asleepR == {})
  }

  /** All but the readers' part holds in every run. */
  ghost predicate Inv(s: State) {
    LockOk(s) && DataOk(s) && OpenOk(s) && WritersOk(s)
  }

  lemma InitInv(s: State)
    requires Init(s)
    ensures Inv(s) && ReadersOk(s)
  {
    FullEmpty(s.ring);
  }

  /** A step of process p that takes, keeps or gives up the lock. */
  predicate Handed(l: Option<nat>, l': Option<nat>, p: nat, had: bool, has: bool) {
    if has then l' == Some(p) && (had || l == None) else l' == if had then None else l
  }

  lemma LockMove(s: State, s': State, p: nat, c: Pc)
    requires LockOk(s) && p < |s.pc| && s'.pc == s.pc[p := c] && Handed(s.lock, s'.lock, p, HasLock(s.pc[p]), HasLock(c))
    ensures LockOk(s')
    ensures Holder(s') == if HasLock(c) then c else if HasLock(s.pc[p]) then Out else Holder(s)
    ensures HasLock(s.pc[p]) ==> Holder(s) == s.pc[p]
    ensures !HasLock(s.pc[p]) && HasLock(c) ==> Holder(s) == Out
  {
  }

  lemma RunMove(s: State, p: nat)
    requires CanRun(s, p) && LockOk(s)
    ensures
      var s' := DoRun(s, p);
      && |s'.pc| == |s.pc| && s'.pc == s.pc[p := s'.pc[p]]
      && Handed(s.lock, s'.lock, p, HasLock(s.pc[p]), HasLock(s'.pc[p]))
      && (Writer(s'.pc[p]) ==> Writer(s.pc[p])) && (Reader(s'.pc[p]) ==> Reader(s.pc[p]))
      && s'.readopen == s.readopen && s'.writeopen == s.writeopen
  {
  }

  lemma RunData(s: State, p: nat)
    requires CanRun(s, p) && Inv(s)
    ensures DataOk(DoRun(s, p))
  {
    var s' := DoRun(s, p);
    RunMove(s, p);
    LockMove(s, s', p, s'.pc[p]);
    FullEmpty(s.ring);
    match s.pc[p]
    case WLoop(src, i) =>
      if i < |src| && !s.ring.Full() {
        PutAppends(s.ring, src[i]);
      }
    case RCopy(n, got) =>
      if |got| < n && !s.ring.Empty() {
        DropTakes(s.ring);
        TakeOne(s.taken, s.ring.Contents(), Head(s.ring), s'.ring.Contents());
      }
    case _ =>
  }

  lemma RunOpen(s: State, p: nat)
    requires CanRun(s, p) && Inv(s)
    ensures OpenOk(DoRun(s, p))
  {
    var s' := DoRun(s, p);
    RunMove(s, p);
    forall q | q in s'.asleepR ensures q < |s'.pc| && s'.pc[q].RAsleep? {
    }
    forall q | q in s'.asleepW ensures q < |s'.pc| && s'.pc[q].WAsleep? {
    }
  }

  lemma RunWriters(s: State, p: nat)
    requires CanRun(s, p) && Inv(s)
    ensures WritersOk(DoRun(s, p))
  {
    var s' := DoRun(s, p);
    RunMove(s, p);
    LockMove(s, s', p, s'.pc[p]);
  }

  lemma RunReaders(s: State, p: nat)
    requires CanRun(s, p) && Inv(s) && ReadersOk(s)
    ensures ReadersOk(DoRun(s, p))
  {
    var s' := DoRun(s, p);
    RunMove(s, p);
    LockMove(s, s', p, s'.pc[p]);
  }

  lemma StartKeeps(s: State, p: nat, c: Pc)
    requires Inv(s) && p < |s.pc| && s.pc[p] == Out
    requires (c.WEnter? && s.writeopen) || (c.REnter? && s.readopen)
    ensures Inv(Go(s, p, c)) && (ReadersOk(s) ==> ReadersOk(Go(s, p, c)))
  {
    LockMove(s, Go(s, p, c), p, c);
  }

  lemma QuitKeeps(s: State, p: nat)
    requires Inv(s) && (Enabled(s, QuitWrite(p)) || Enabled(s, QuitRead(p)))
    ensures Inv(Go(s, p, Out).(lock := None))
    ensures ReadersOk(s) && (s.pc[p].RTest? || s.asleepR == {}) ==> ReadersOk(Go(s, p, Out).(lock := None))
  {
    LockMove(s, Go(s, p, Out).(lock := None), p, Out);
  }

  lemma CloseKeeps(s: State, l: Label)
    requires Inv(s) && (l == CloseWrite || l == CloseRead) && Enabled(s, l)
    ensures Inv(Apply(s, l)) && (ReadersOk(s) ==> ReadersOk(Apply(s, l)))
  {
    assert Holder(Apply(s, l)) == Holder(s) == Out;
  }

  lemma KillKeeps(s: State, q: nat)
    requires Inv(s) && Enabled(s, Kill(q))
    ensures Inv(Apply(s, Kill(q))) && (ReadersOk(s) ==> ReadersOk(Apply(s, Kill(q))))
  {
    assert Holder(Apply(s, Kill(q))) == Holder(s);
  }

  /** A writer that finds the ring full and has been killed returns without waking anyone.
      It does harm if a reader is asleep. */
  predicate Forgets(s: State, l: Label) {
    l.QuitWrite? && s.asleepR != {}
  }

  lemma StepKeeps(s: State, l: Label)
    requires Inv(s) && Enabled(s, l)
    ensures Inv(Apply(s, l))
    ensures ReadersOk(s) && !Forgets(s, l) ==> ReadersOk(Apply(s, l))
  {
    match l
    case StartWrite(p, src) => StartKeeps(s, p, WEnter(src));
    case StartRead(p, n) => StartKeeps(s, p, REnter(n));
    case Run(p) =>
      RunMove(s, p);
      LockMove(s, DoRun(s, p), p, DoRun(s, p).pc[p]);
      RunData(s, p);
      RunOpen(s, p);
      RunWriters(s, p);
      if ReadersOk(s) { RunReaders(s, p); }
    case QuitWrite(p) => QuitKeeps(s, p);
    case QuitRead(p) => QuitKeeps(s, p);
    case CloseWrite => CloseKeeps(s, l);
    case CloseRead => CloseKeeps(s, l);
    case Kill(q) => KillKeeps(s, q);
  }

  lemma {:induction false} RunKeeps(r: seq<State>, ls: seq<Label>, i: nat)
    requires IsRun(r, ls) && i < |r|
    ensures Inv(r[i])
    ensures (forall j :: 0 <= j < i ==> !Forgets(r[j], ls[j])) ==> ReadersOk(r[i])
  {
    if i == 0 {
      InitInv(r[0]);
    } else {
      RunKeeps(r, ls, i - 1);
      RunStep(r, ls, i - 1);
    }
  }

  lemma RunStep(r: seq<State>, ls: seq<Label>, i: nat)
    requires IsRun(r, ls) && i < |ls| && Inv(r[i])
    ensures Inv(r[i + 1]) && (ReadersOk(r[i]) && !Forgets(r[i], ls[i]) ==> ReadersOk(r[i + 1]))
  {
    StepKeeps(r[i], ls[i]);
  }

  // ----- what it means -----------------------------------------------------

  /** The bytes handed to readers are, in order, a prefix of the bytes writers stored; the
      rest is the ring's contents, at most PIPESIZE bytes, and what a reader has in hand. */
  lemma PrefixInOrder(r: seq<State>, ls: seq<Label>, i: nat)
    requires IsRun(r, ls) && i < |r|
    ensures r[i].ring.Valid() && |r[i].ring.Contents()| <= PIPESIZE
    ensures r[i].written == r[i].returned + Held(Holder(r[i])) + r[i].ring.Contents()
    ensures r[i].lock == None ==> r[i].written == r[i].returned + r[i].ring.Contents()
  {
    RunKeeps(r, ls, i);
  }

  /** With the lock free, a sleeping writer finds the pipe full and its read end open. */
  lemma SleepingWriterFull(r: seq<State>, ls: seq<Label>, i: nat)
    requires IsRun(r, ls) && i < |r| && r[i].lock == None && r[i].asleepW != {}
    ensures r[i].ring.Full() && r[i].readopen
  {
    RunKeeps(r, ls, i);
  }

  /** What one would like to know of sleeping readers. */
  ghost predicate ReadersFine(s: State) {
    s.lock == None && s.asleepR != {} ==> s.ring.Empty() && s.writeopen
  }

  /** It holds throughout a run if and only if no writer gave up on being killed while a
      reader was asleep. */
  lemma SleepingReaderEmptyIff(r: seq<State>, ls: seq<Label>)
    requires IsRun(r, ls)
    ensures (forall i :: 0 <= i < |r| ==> ReadersFine(r[i])) <==> (forall j :: 0 <= j < |ls| ==> !Forgets(r[j], ls[j]))
  {
    if forall j :: 0 <= j < |ls| ==> !Forgets(r[j], ls[j]) {
      forall i | 0 <= i < |r| ensures ReadersFine(r[i]) {
        RunKeeps(r, ls, i);
      }
    } else {
      var j :| 0 <= j < |ls| && Forgets(r[j], ls[j]);
      RunKeeps(r, ls, j);
      ForgottenReader(r[j], ls[j]);
      assert !ReadersFine(r[j + 1]);
    }
  }

  lemma ForgottenReader(s: State, l: Label)
    requires Inv(s) && Enabled(s, l) && Forgets(s, l)
    ensures !ReadersFine(Apply(s, l))
  {
    FullEmpty(s.ring);
  }

  /** A killed sleeper goes on as soon as the lock is free. */
  lemma KilledGoesOn(r: seq<State>, ls: seq<Label>, i: nat, q: nat)
    requires IsRun(r, ls) && i < |ls| && ls[i] == Kill(q) && r[i].lock == None
    ensures CanRun(r[i + 1], q)
  {
    RunKeeps(r, ls, i);
  }

  /** When both ends are closed and the pipe is freed, nobody is in it. */
  lemma FreedUnused(r: seq<State>, ls: seq<Label>, i: nat)
    requires IsRun(r, ls) && i < |r| && !r[i].readopen && !r[i].writeopen
    ensures forall p :: 0 <= p < |r[i].pc| ==> r[i].pc[p] == Out
    ensures r[i].lock == None && r[i].asleepR == {} && r[i].asleepW == {}
  {
    RunKeeps(r, ls, i);
    assert !HasLock(Holder(r[i]));
  }

  // ----- one call ----------------------------------------------------------

  /** The last call of a process: what it was given, and the bytes that have gone into the
      pipe or come out of it in that call. */
  datatype Call = NoCall | Writing(src: seq<nat>, put: seq<nat>) | Reading(n: nat, got: seq<nat>)

  function Grown(a: seq<nat>, b: seq<nat>): seq<nat> {
    if |a| <= |b| then b[|a|..] else []
  }

  ghost function CallNext(c: Call, p: nat, l: Label, s: State, s': State): Call {
    match l
    case StartWrite(q, src) => if q == p then Writing(src, []) else c
    case StartRead(q, n) => if q == p then Reading(n, []) else c
    case Run(q) =>
      if q != p then c
      else if c.Writing? then c.(put := c.put + Grown(s.written, s'.written))
      else if c.Reading? then c.(got := c.got + Grown(s.taken, s'.taken))
      else c
    case _ => c
  }

  ghost function CallAt(r: seq<State>, ls: seq<Label>, i: nat, p: nat): Call
    requires |r| == |ls| + 1 && i < |r|
  {
    if i == 0 then NoCall else CallNext(CallAt(r, ls, i - 1, p), p, ls[i - 1], r[i - 1], r[i])
  }

  ghost predicate WriteOk(c: Call, src: seq<nat>, i: nat) {
    i <= |src| && c == Writing(src, src[..i])
  }

  ghost predicate ReadOk(s: State, c: Call, got: seq<nat>, done: bool) {
    && c.Reading? && c.got == got && |got| <= c.n && (got == [] && c.n > 0 ==> !s.ring.Empty() || !s.writeopen)
    && (done && |got| < c.n ==> s.ring.Empty())
  }

  ghost predicate CallOk(s: State, c: Call, p: nat)
    requires p < |s.pc|
  {
    match s.pc[p]
    case Out => (c.Writing? ==> c.put <= c.src) && (c.Reading? ==> |c.got| <= c.n)
    case WEnter(src) => WriteOk(c, src, 0)
    case WLoop(src, i) => WriteOk(c, src, i)
    case WWakeFull(src, i) => WriteOk(c, src, i)
    case WSleep(src, i) => WriteOk(c, src, i)
    case WAsleep(src, i) => WriteOk(c, src, i)
    case WWakeLast => c.Writing? && c.put == c.src
    case WExit => c.Writing? && c.put == c.src
    case REnter(n) => c == Reading(n, [])
    case RTest(n) => c == Reading(n, [])
    case RAsleep(n) => c == Reading(n, [])
    case RCopy(n, got) => ReadOk(s, c, got, false) && c.n == n
    case RWake(got) => ReadOk(s, c, got, true)
    case RExit(got) => ReadOk(s, c, got, true)
  }

  lemma OneMore(src: seq<nat>, i: nat, put: seq<nat>, b: nat)
    requires i < |src| && b == src[i] && put == src[..i]
    ensures put + [b] == src[..i + 1]
  {
  }

  lemma GrownOne(a: seq<nat>, b: nat)
    ensures Grown(a, a + [b]) == [b] && Grown(a, a) == []
  {
  }

  lemma OwnWrite(s: State, c: Call, p: nat)
    requires CanRun(s, p) && CallOk(s, c, p) && Writer(s.pc[p])
    ensures p < |DoRun(s, p).pc| && CallOk(DoRun(s, p), CallNext(c, p, Run(p), s, DoRun(s, p)), p)
  {
    GrownOne(s.written, 0);
    if s.pc[p].WLoop? && s.pc[p].i < |s.pc[p].src| && !s.ring.Full() {
      GrownOne(s.written, s.pc[p].src[s.pc[p].i]);
      OneMore(s.pc[p].src, s.pc[p].i, c.put, s.pc[p].src[s.pc[p].i]);
    }
  }

  lemma OwnRead(s: State, c: Call, p: nat)
    requires CanRun(s, p) && CallOk(s, c, p) && Reader(s.pc[p])
    ensures p < |DoRun(s, p).pc| && CallOk(DoRun(s, p), CallNext(c, p, Run(p), s, DoRun(s, p)), p)
  {
    GrownOne(s.taken, 0);
    if s.pc[p].RCopy? {
      GrownOne(s.taken, Head(s.ring));
    }
  }

  /** A step that is not of process p's call leaves the ring as it is if p has the lock. */
  lemma OthersStep(s: State, l: Label, p: nat)
    requires Inv(s) && Enabled(s, l) && p < |s.pc| && HasLock(s.pc[p]) && l != Run(p) && l != QuitWrite(p) && l != QuitRead(p)
    ensures
      var s' := Apply(s, l);
      p < |s'.pc| && s'.pc[p] == s.pc[p] && s'.ring == s.ring && s'.writeopen == s.writeopen
  {
    assert s.lock == Some(p);
  }

  lemma CallStep(s: State, l: Label, c: Call, p: nat)
    requires Inv(s) && Enabled(s, l) && p < |s.pc| && CallOk(s, c, p)
    ensures p < |Apply(s, l).pc| && CallOk(Apply(s, l), CallNext(c, p, l, s, Apply(s, l)), p)
  {
    if l == Run(p) {
      if Writer(s.pc[p]) {
        OwnWrite(s, c, p);
      } else {
        OwnRead(s, c, p);
      }
    } else if HasLock(s.pc[p]) && l != QuitWrite(p) && l != QuitRead(p) {
      OthersStep(s, l, p);
    }
  }

  lemma {:induction false} RunCalls(r: seq<State>, ls: seq<Label>, i: nat, p: nat)
    requires IsRun(r, ls) && i < |r| && p < |r[0].pc|
    ensures p < |r[i].pc| && CallOk(r[i], CallAt(r, ls, i, p), p)
  {
    if i > 0 {
      RunCalls(r, ls, i - 1, p);
      RunKeeps(r, ls, i - 1);
      CallStep(r[i - 1], ls[i - 1], CallAt(r, ls, i - 1, p), p);
    }
  }

  /** In every state of every run a call of pipewrite has stored, in order, the bytes it was
      given up to where it stands, and all of them when it is about to return. */
  lemma WriteInOrder(r: seq<State>, ls: seq<Label>, i: nat, p: nat)
    requires IsRun(r, ls) && i < |r| && p < |r[0].pc| && CallAt(r, ls, i, p).Writing?
    ensures p < |r[i].pc| && CallAt(r, ls, i, p).put <= CallAt(r, ls, i, p).src
    ensures r[i].pc[p].WLoop? ==> |CallAt(r, ls, i, p).put| == r[i].pc[p].i
    ensures r[i].pc[p].WExit? ==> CallAt(r, ls, i, p).put == CallAt(r, ls, i, p).src
  {
    RunCalls(r, ls, i, p);
  }

  /** A call of piperead returns the bytes it took: no more than were asked for, fewer only
      if it left the ring empty, and none only at the end of the file. */
  lemma ReadReturns(r: seq<State>, ls: seq<Label>, i: nat, p: nat)
    requires IsRun(r, ls) && i < |ls| && p < |r[0].pc| && p < |r[i].pc| && r[i].pc[p].RExit? && ls[i] == Run(p)
    ensures
      var c := CallAt(r, ls, i, p);
      && c.Reading? && r[i + 1].returned == r[i].returned + c.got && |c.got| <= c.n
      && (|c.got| < c.n ==> r[i].ring.Empty())
      && (c.got == [] && c.n > 0 ==> r[i].ring.Empty() && !r[i].writeopen)
  {
    RunCalls(r, ls, i, p);
  }

  /** Only a call of pipewrite stores bytes, one at a time, and only one of piperead takes them. */
  lemma StoredByCall(r: seq<State>, ls: seq<Label>, i: nat)
    requires IsRun(r, ls) && i < |ls|
    ensures r[i + 1].written == r[i].written + Grown(r[i].written, r[i + 1].written)
    ensures r[i + 1].taken == r[i].taken + Grown(r[i].taken, r[i + 1].taken)
    ensures r[i + 1].written != r[i].written ==> ls[i].Run? && ls[i].p < |r[0].pc| && CallAt(r, ls, i, ls[i].p).Writing?
    ensures r[i + 1].taken != r[i].taken ==> ls[i].Run? && ls[i].p < |r[0].pc| && CallAt(r, ls, i, ls[i].p).Reading?
  {
    SameCrowd(r, ls, i);
    if ls[i].Run? {
      RunCalls(r, ls, i, ls[i].p);
    }
  }

  lemma {:induction false} SameCrowd(r: seq<State>, ls: seq<Label>, i: nat)
    requires IsRun(r, ls) && i < |r|
    ensures |r[i].pc| == |r[0].pc|
  {
    if i > 0 {
      SameCrowd(r, ls, i - 1);
    }
  }

  // ----- such a run exists -------------------------------------------------

  ghost predicate Reachable(s: State) {
    exists r, ls :: IsRun(r, ls) && r[|r| - 1] == s
  }

  lemma Extend(s: State, l: Label)
    requires Reachable(s) && Enabled(s, l)
    ensures Reachable(Apply(s, l))
  {
    var r, ls :| IsRun(r, ls) && r[|r| - 1] == s;
    var r', ls' := r + [Apply(s, l)], ls + [l];
    forall i | 0 <= i < |ls'| ensures Enabled(r'[i], ls'[i]) && r'[i + 1] == Apply(r'[i], ls'[i]) {
    }
    assert IsRun(r', ls');
  }

  lemma {:induction false} FillReachable(s: State, src: seq<nat>, k: nat) returns (s': State)
    requires Reachable(s) && Inv(s) && |s.pc| == 2 && s.pc[0] == RAsleep(1) && s.pc[1] == WLoop(src, 0) && s.asleepR == {0}
    requires s.ring.Empty() && k <= PIPESIZE <= |src| && s.readopen && s.writeopen
    ensures Reachable(s') && Inv(s') && |s'.pc| == 2 && s'.pc[0] == RAsleep(1) && s'.pc[1] == WLoop(src, k) && s'.asleepR == {0}
    ensures |s'.ring.Contents()| == k && s'.readopen && s'.writeopen
    decreases k
  {
    FullEmpty(s.ring);
    if k == 0 {
      s' := s;
    } else {
      var s1 := FillReachable(s, src, k - 1);
      FullEmpty(s1.ring);
      PutAppends(s1.ring, src[k - 1]);
      Extend(s1, Run(1));
      StepKeeps(s1, Run(1));
      s' := Apply(s1, Run(1));
    }
  }

  lemma ReachableInv(s: State)
    requires Reachable(s)
    ensures Inv(s)
  {
    var r, ls :| IsRun(r, ls) && r[|r| - 1] == s;
    RunKeeps(r, ls, |r| - 1);
  }

  /** A reader has gone to sleep on an empty pipe ... */
  lemma ReaderAsleep() returns (s: State)
    ensures Reachable(s) && s.pc == [RAsleep(1), Out] && s.asleepR == {0} && s.lock == None
    ensures s.ring.Empty() && s.readopen && s.writeopen
  {
    var ring := Ring(seq(PIPESIZE, _ => 0), 0, 0);
    s := State([Out, Out], ring, true, true, None, {}, {}, [], [], []);
    assert IsRun([s], []) && [s][|[s]| - 1] == s;
    Extend(s, StartRead(0, 1));
    s := Apply(s, StartRead(0, 1));
    Extend(s, Run(0));
    s := Apply(s, Run(0));
    Extend(s, Run(0));
    s := Apply(s, Run(0));
  }

  /** ... and a writer with more than PIPESIZE bytes comes. */
  lemma WriterComes(src: seq<nat>) returns (s: State)
    ensures Reachable(s) && |s.pc| == 2 && s.pc[0] == RAsleep(1) && s.pc[1] == WLoop(src, 0) && s.asleepR == {0}
    ensures s.ring.Empty() && s.readopen && s.writeopen
  {
    s := ReaderAsleep();
    ReachableInv(s);
    Extend(s, StartWrite(1, src));
    s := Apply(s, StartWrite(1, src));
    Extend(s, Run(1));
    s := Apply(s, Run(1));
  }

  /** A reader sleeps on a full pipe that nobody holds. */
  lemma ReaderForgotten() returns (s: State)
    ensures Reachable(s) && s.lock == None && s.asleepR != {} && s.ring.Full() && s.readopen && s.writeopen
  {
    var src := seq(PIPESIZE + 1, _ => 0);
    s := WriterComes(src);
    ReachableInv(s);
    s := FillReachable(s, src, PIPESIZE);
    FullEmpty(s.ring);
    Extend(s, QuitWrite(1));
    s := Apply(s, QuitWrite(1));
  }
}
