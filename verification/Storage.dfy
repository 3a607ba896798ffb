/**
 Crash-safe storage: the redo log (log.c) over the buffer cache (bio.c) over a disk with
 atomic block writes (memide.c), as one step machine.  Any number of processes take
 steps in any order, a commit goes on one disk write at a time, and a crash may come
 between any two steps, also while recovery itself runs.

 The machine is proved to refine a plain map from block numbers to blocks with a
 durable copy of itself: see `Abs`, `SpecNext` and `RunRefines`.

 A panic is the absence of a step.  The cache's choice among the buffers it may recycle
 is left open here (module BufferCache fixes it), and a sleep-lock is taken in one step
 (module SleepLock).
 */
module Storage {
  import opened Common
  import Log

  const BWORDS := 128

  type Pid = Log.Pid

  /** A disk block, as the BWORDS 32-bit words the log header is read in. */
  datatype Block = Block(words: seq<nat>)

  /** `refs` holds one entry per unit of refcnt, so |refs| is refcnt.  `touched` records
      that the holder has changed the data and not yet called log_write. */
  datatype Buf = Buf(
    dev: nat, blockno: nat, valid: bool, dirty: bool,
    refs: multiset<Pid>, holder: Option<Pid>, touched: bool, data: Block)

  /** The superblock's view of the disk: `size` blocks, of which nlog from start are the
      log area: a header block and then one slot for each logged block. */
  datatype Layout = Layout(size: nat, start: nat, nlog: nat) {
    predicate Valid() {
      nlog > 0 && start + nlog <= size
    }

    predicate Home(b: int) {
      0 <= b < size && !(start <= b < start + nlog)
    }
  }

  datatype Phase =
    | Idle
    | Logging(tail: nat)      // write_log
    | Heading                 // write_head: the commit point
    | Installing(tail: nat)   // install_trans
    | Clearing                // write_head with n == 0
    | Closing                 // log.committing = 0 is still to come
    | Booting                 // read_head, after a crash

  /** `booting` is set from a crash until recovery is complete; `worker` is the process
      that runs commit or recovery. */
  datatype State = State(
    disk: seq<Block>, bufs: seq<Buf>, log: Log.State,
    phase: Phase, booting: bool, worker: Pid)

  datatype Label =
    | BeginOp(p: Pid)
    | Hit(p: Pid, i: nat, b: nat)
    | Recycle(p: Pid, i: nat, b: nat)
    | Lock(p: Pid, i: nat)
    | Fill(p: Pid, i: nat)
    | Touch(p: Pid, i: nat, data: Block)
    | Guard(p: Pid)
    | LogWrite(p: Pid, i: nat)
    | Unlock(p: Pid, i: nat)
    | Drop(p: Pid, i: nat)
    | EndOp(p: Pid)
    | CopyToLog(to: nat, from: nat)
    | EndLogging
    | WriteHead(i: nat)
    | InstallOne(from: nat, to: nat)
    | DropHeader
    | ClearHead(i: nat)
    | Close
    | ReadHead(i: nat)
    | Crash

  // ----- the header block --------------------------------------------------

  function Words(w: seq<nat>, from: nat, n: nat): seq<nat>
    decreases n
  {
    if n == 0 || from >= |w| then [] else [w[from]] + Words(w, from + 1, n - 1)
  }

  /** read_head: n, then n block numbers. */
  function Head(b: Block): seq<nat> {
    if HeadOk(b) then Words(b.words, 1, b.words[0]) else []
  }

  /** A header as write_head leaves it; any other is not read. */
  predicate HeadOk(b: Block) {
    |b.words| == BWORDS && b.words[0] <= LOGSIZE
  }

  /** write_head stores n and the first n block numbers and leaves the rest alone. */
  function PutHead(b: Block, lh: seq<nat>): Block
    requires |lh| <= LOGSIZE
  {
    Block([|lh|] + lh + if |b.words| == BWORDS then b.words[1 + |lh|..] else seq(BWORDS - 1 - |lh|, _ => 0))
  }

  lemma {:induction false} WordsAre(w: seq<nat>, from: nat, n: nat)
    requires from + n <= |w|
    ensures Words(w, from, n) == w[from..from + n]
    decreases n
  {
    if n > 0 {
      WordsAre(w, from + 1, n - 1);
    }
  }

  lemma HeadRoundTrip(b: Block, lh: seq<nat>)
    requires |lh| <= LOGSIZE
    ensures HeadOk(PutHead(b, lh)) && Head(PutHead(b, lh)) == lh
  {
    var h := PutHead(b, lh).words;
    WordsAre(h, 1, |lh|);
    assert h[1..1 + |lh|] == lh;
  }

  lemma HeadIsShort(b: Block)
    ensures |Head(b)| <= LOGSIZE
  {
    if HeadOk(b) {
      WordsAre(b.words, 1, b.words[0]);
    }
  }

  // ----- steps -------------------------------------------------------------

  const EmptyBuf := Buf(0, 0, false, false, multiset{}, None, false, Block([]))

  predicate Caches(s: State, i: nat, b: int) {
    i < |s.bufs| && s.bufs[i].dev == 1 && s.bufs[i].blockno == b
  }

  predicate Holds(s: State, p: Pid, i: nat) {
    i < |s.bufs| && s.bufs[i].holder == Some(p)
  }

  /** bread has returned buffer i, for block b, to p. */
  predicate Has(s: State, p: Pid, i: nat, b: int) {
    Holds(s, p, i) && Caches(s, i, b) && s.bufs[i].valid
  }

  /** File-system calls read home blocks; commit and recovery also the log area. */
  predicate MayRead(y: Layout, s: State, p: Pid, b: nat) {
    if p == s.worker && (s.booting || s.log.committing) then b < y.size else y.Home(b) && !s.booting
  }

  predicate CanBeginOp(y: Layout, s: State, p: Pid) {
    !s.booting && Log.CanBegin(s.log, p)
  }

  function DoBeginOp(y: Layout, s: State, p: Pid): State
    requires CanBeginOp(y, s, p)
  {
    s.(log := Log.Begin(s.log, p))
  }

  predicate CanHit(y: Layout, s: State, p: Pid, i: nat, b: nat) {
    MayRead(y, s, p, b) && Caches(s, i, b)
  }

  function DoHit(y: Layout, s: State, p: Pid, i: nat, b: nat): State
    requires CanHit(y, s, p, i, b)
  {
    s.(bufs := s.bufs[i := s.bufs[i].(refs := s.bufs[i].refs + multiset{p})])
  }

  predicate CanRecycle(y: Layout, s: State, p: Pid, i: nat, b: nat) {
    && MayRead(y, s, p, b)
    && (forall j :: 0 <= j < |s.bufs| ==> !Caches(s, j, b))
    && i < |s.bufs| && s.bufs[i].refs == multiset{} && !s.bufs[i].dirty
  }

  function DoRecycle(y: Layout, s: State, p: Pid, i: nat, b: nat): State
    requires CanRecycle(y, s, p, i, b)
  {
    s.(bufs := s.bufs[i := s.bufs[i].(dev := 1, blockno := b, valid := false, dirty := false, refs := multiset{p})])
  }

  predicate CanLock(y: Layout, s: State, p: Pid, i: nat) {
    i < |s.bufs| && p in s.bufs[i].refs && s.bufs[i].holder == None
  }

  function DoLock(y: Layout, s: State, p: Pid, i: nat): State
    requires CanLock(y, s, p, i)
  {
    s.(bufs := s.bufs[i := s.bufs[i].(holder := Some(p))])
  }

  predicate CanFill(y: Layout, s: State, p: Pid, i: nat) {
    Holds(s, p, i) && !s.bufs[i].valid && s.bufs[i].blockno < |s.disk|
  }

  function DoFill(y: Layout, s: State, p: Pid, i: nat): State
    requires CanFill(y, s, p, i)
  {
    s.(bufs := s.bufs[i := s.bufs[i].(valid := true, data := s.disk[s.bufs[i].blockno])])
  }

  predicate CanTouch(y: Layout, s: State, p: Pid, i: nat, data: Block) {
    Holds(s, p, i) && s.bufs[i].valid && p in s.log.ops && y.Home(s.bufs[i].blockno)
  }

  function DoTouch(y: Layout, s: State, p: Pid, i: nat, data: Block): State
    requires CanTouch(y, s, p, i, data)
  {
    s.(bufs := s.bufs[i := s.bufs[i].(touched := true, data := data)])
  }

  predicate CanGuard(y: Layout, s: State, p: Pid) {
    Log.CanGuard(s.log, p, y.nlog)
  }

  function DoGuard(y: Layout, s: State, p: Pid): State
    requires CanGuard(y, s, p)
  {
    s.(log := Log.Guard(s.log, p))
  }

  predicate CanLogWrite(y: Layout, s: State, p: Pid, i: nat) {
    && Holds(s, p, i) && s.bufs[i].valid && y.Home(s.bufs[i].blockno)
    && Log.CanAppend(s.log, p, s.bufs[i].blockno)
  }

  function DoLogWrite(y: Layout, s: State, p: Pid, i: nat): State
    requires CanLogWrite(y, s, p, i)
  {
    s.(log := Log.Append(s.log, p, s.bufs[i].blockno),
       bufs := s.bufs[i := s.bufs[i].(dirty := true, touched := false)])
  }

  predicate CanUnlock(y: Layout, s: State, p: Pid, i: nat) {
    Holds(s, p, i) && !s.bufs[i].touched
  }

  function DoUnlock(y: Layout, s: State, p: Pid, i: nat): State
    requires CanUnlock(y, s, p, i)
  {
    s.(bufs := s.bufs[i := s.bufs[i].(holder := None)])
  }

  predicate CanDrop(y: Layout, s: State, p: Pid, i: nat) {
    i < |s.bufs| && p in s.bufs[i].refs && !(Holds(s, p, i) && s.bufs[i].refs[p] == 1)
  }

  function DoDrop(y: Layout, s: State, p: Pid, i: nat): State
    requires CanDrop(y, s, p, i)
  {
    s.(bufs := s.bufs[i := s.bufs[i].(refs := s.bufs[i].refs - multiset{p})])
  }

  predicate CanEndOp(y: Layout, s: State, p: Pid) {
    && Log.CanEnd(s.log, p)
    && (forall i :: 0 <= i < |s.bufs| && s.bufs[i].touched ==> s.bufs[i].holder != Some(p))
  }

  function DoEndOp(y: Layout, s: State, p: Pid): State
    requires CanEndOp(y, s, p)
  {
    // the last call out commits, unless it finds nothing logged
    var l' := Log.End(s.log, p);
    s.(log := l', worker := if l'.committing then p else s.worker,
       phase := if !l'.committing then s.phase else if |l'.lh| > 0 then Logging(0) else Closing)
  }

  predicate CanCopyToLog(y: Layout, s: State, to: nat, from: nat) {
    && s.phase.Logging? && s.phase.tail < |s.log.lh| && y.start + s.phase.tail + 1 < |s.disk|
    && Has(s, s.worker, to, y.start + s.phase.tail + 1)
    && Has(s, s.worker, from, s.log.lh[s.phase.tail])
  }

  function DoCopyToLog(y: Layout, s: State, to: nat, from: nat): State
    requires CanCopyToLog(y, s, to, from)
  {
    var data := s.bufs[from].data;
    s.(bufs := s.bufs[to := s.bufs[to].(data := data)],
       disk := s.disk[y.start + s.phase.tail + 1 := data],
       phase := Logging(s.phase.tail + 1))
  }

  predicate CanEndLogging(y: Layout, s: State) {
    s.phase == Logging(|s.log.lh|)
  }

  function DoEndLogging(y: Layout, s: State): State
    requires CanEndLogging(y, s)
  {
    s.(phase := Heading)
  }

  predicate CanWriteHead(y: Layout, s: State, i: nat) {
    s.phase == Heading && |s.log.lh| <= LOGSIZE && y.start < |s.disk| && Has(s, s.worker, i, y.start)
  }

  function DoWriteHead(y: Layout, s: State, i: nat): State
    requires CanWriteHead(y, s, i)
  {
    var data := PutHead(s.bufs[i].data, s.log.lh);
    s.(bufs := s.bufs[i := s.bufs[i].(data := data)], disk := s.disk[y.start := data], phase := Installing(0))
  }

  predicate CanInstallOne(y: Layout, s: State, from: nat, to: nat) {
    && s.phase.Installing? && s.phase.tail < |s.log.lh| && s.log.lh[s.phase.tail] < |s.disk|
    && Has(s, s.worker, from, y.start + s.phase.tail + 1)
    && Has(s, s.worker, to, s.log.lh[s.phase.tail])
  }

  function DoInstallOne(y: Layout, s: State, from: nat, to: nat): State
    requires CanInstallOne(y, s, from, to)
  {
    var data := s.bufs[from].data;
    s.(bufs := s.bufs[to := s.bufs[to].(data := data, dirty := false)],
       disk := s.disk[s.log.lh[s.phase.tail] := data],
       phase := Installing(s.phase.tail + 1))
  }

  predicate CanDropHeader(y: Layout, s: State) {
    s.phase == Installing(|s.log.lh|)
  }

  function DoDropHeader(y: Layout, s: State): State
    requires CanDropHeader(y, s)
  {
    s.(log := Log.Forget(s.log), phase := Clearing)
  }

  predicate CanClearHead(y: Layout, s: State, i: nat) {
    s.phase == Clearing && y.start < |s.disk| && Has(s, s.worker, i, y.start)
  }

  function DoClearHead(y: Layout, s: State, i: nat): State
    requires CanClearHead(y, s, i)
  {
    var data := PutHead(s.bufs[i].data, []);
    s.(bufs := s.bufs[i := s.bufs[i].(data := data)], disk := s.disk[y.start := data],
       phase := if s.booting then Idle else Closing, booting := false)
  }

  predicate CanClose(y: Layout, s: State) {
    s.phase == Closing
  }

  function DoClose(y: Layout, s: State): State
    requires CanClose(y, s)
  {
    s.(log := Log.Finish(s.log), phase := Idle)
  }

  predicate CanReadHead(y: Layout, s: State, i: nat) {
    s.phase == Booting && Has(s, s.worker, i, y.start)
  }

  function DoReadHead(y: Layout, s: State, i: nat): State
    requires CanReadHead(y, s, i)
  {
    s.(log := s.log.(lh := Head(s.bufs[i].data)), phase := Installing(0))
  }

  predicate CanCrash(y: Layout, s: State) {
    true
  }

  function DoCrash(y: Layout, s: State): State
    requires CanCrash(y, s)
  {
    s.(bufs := seq(NBUF, _ => EmptyBuf), log := Log.Empty, phase := Booting, booting := true)
  }

  predicate Enabled(y: Layout, s: State, l: Label) {
    match l
    case BeginOp(p) => CanBeginOp(y, s, p)
    case Hit(p, i, b) => CanHit(y, s, p, i, b)
    case Recycle(p, i, b) => CanRecycle(y, s, p, i, b)
    case Lock(p, i) => CanLock(y, s, p, i)
    case Fill(p, i) => CanFill(y, s, p, i)
    case Touch(p, i, data) => CanTouch(y, s, p, i, data)
    case Guard(p) => CanGuard(y, s, p)
    case LogWrite(p, i) => CanLogWrite(y, s, p, i)
    case Unlock(p, i) => CanUnlock(y, s, p, i)
    case Drop(p, i) => CanDrop(y, s, p, i)
    case EndOp(p) => CanEndOp(y, s, p)
    case CopyToLog(to, from) => CanCopyToLog(y, s, to, from)
    case EndLogging => CanEndLogging(y, s)
    case WriteHead(i) => CanWriteHead(y, s, i)
    case InstallOne(from, to) => CanInstallOne(y, s, from, to)
    case DropHeader => CanDropHeader(y, s)
    case ClearHead(i) => CanClearHead(y, s, i)
    case Close => CanClose(y, s)
    case ReadHead(i) => CanReadHead(y, s, i)
    case Crash => CanCrash(y, s)
  }

  function Apply(y: Layout, s: State, l: Label): State
    requires Enabled(y, s, l)
  {
    match l
    case BeginOp(p) => DoBeginOp(y, s, p)
    case Hit(p, i, b) => DoHit(y, s, p, i, b)
    case Recycle(p, i, b) => DoRecycle(y, s, p, i, b)
    case Lock(p, i) => DoLock(y, s, p, i)
    case Fill(p, i) => DoFill(y, s, p, i)
    case Touch(p, i, data) => DoTouch(y, s, p, i, data)
    case Guard(p) => DoGuard(y, s, p)
    case LogWrite(p, i) => DoLogWrite(y, s, p, i)
    case Unlock(p, i) => DoUnlock(y, s, p, i)
    case Drop(p, i) => DoDrop(y, s, p, i)
    case EndOp(p) => DoEndOp(y, s, p)
    case CopyToLog(to, from) => DoCopyToLog(y, s, to, from)
    case EndLogging => DoEndLogging(y, s)
    case WriteHead(i) => DoWriteHead(y, s, i)
    case InstallOne(from, to) => DoInstallOne(y, s, from, to)
    case DropHeader => DoDropHeader(y, s)
    case ClearHead(i) => DoClearHead(y, s, i)
    case Close => DoClose(y, s)
    case ReadHead(i) => DoReadHead(y, s, i)
    case Crash => DoCrash(y, s)
  }

  // ----- the plain map it refines ------------------------------------------

  /** `cur` is what reads see; `durable` is what recovery would bring back; `open` are
      the file-system calls in progress. */
  datatype Abs = Abs(cur: map<nat, Block>, durable: map<nat, Block>, open: set<Pid>)

  function Write(a: Abs, b: nat, data: Block): Abs {
    a.(cur := a.cur[b := data])
  }

  ghost predicate SpecNext(a: Abs, a': Abs) {
    || a' == a
    || (exists p :: a' == a.(open := a.open + {p}))
    || (a.open != {} && exists b, data: Block :: b in a.cur && a' == Write(a, b, data))
    || (exists p :: p in a.open && a' == a.(open := a.open - {p}))
    || (a.open == {} && a' == a.(durable := a.cur))
    || a' == Abs(a.durable, a.durable, {})
  }

  function AbsNext(s: State, a: Abs, l: Label): Abs {
    match l
    case BeginOp(p) => a.(open := a.open + {p})
    case LogWrite(p, i) => if i < |s.bufs| then Write(a, s.bufs[i].blockno, s.bufs[i].data) else a
    case EndOp(p) => a.(open := a.open - {p})
    case WriteHead(i) => a.(durable := a.cur)
    case Crash => Abs(a.durable, a.durable, {})
    case _ => a
  }

  // ----- the refinement relation -------------------------------------------

  /** Logged blocks whose home location has not been written yet. */
  function Pending(phase: Phase, lh: seq<nat>): set<nat> {
    match phase
    case Idle => Elems(lh)
    case Logging(_) => Elems(lh)
    case Heading => Elems(lh)
    case Installing(t) => if t <= |lh| then Elems(lh[t..]) else {}
    case _ => {}
  }

  function Elems(s: seq<nat>): set<nat> {
    set b | b in s
  }

  lemma ElemsNext(s: seq<nat>, t: nat)
    requires Distinct(s) && t < |s|
    ensures s[t] in Elems(s[t..]) && Elems(s[t + 1..]) == Elems(s[t..]) - {s[t]}
  {
    assert s[t..] == [s[t]] + s[t + 1..];
  }

  ghost predicate Control(y: Layout, log: Log.State, phase: Phase, booting: bool) {
    && Distinct(log.lh)
    && |log.lh| <= LOGSIZE
    && (forall b :: b in log.lh ==> y.Home(b))
    && (log.committing ==> log.ops == map[])
    && (booting ==> log.ops == map[] && !log.committing && (phase.Booting? || phase.Clearing? || phase.Installing?))
    && (!booting ==> (log.committing <==> !phase.Idle?) && !phase.Booting?)
    && (phase.Booting? || phase.Clearing? || phase.Closing? ==> log.lh == [])
    && (phase.Logging? || phase.Installing? ==> phase.tail <= |log.lh|)
    && (phase.Logging? ==> log.lh != [])
  }

  /** One buffer against the disk, the pending blocks and the open calls. */
  ghost predicate BufOk(y: Layout, disk: seq<Block>, pending: set<nat>, open: set<Pid>, b: Buf) {
    && (b.holder.Some? ==> b.holder.value in b.refs)
    && (b.dev == 1 ==> b.blockno < |disk|)
    && (b.dev != 1 ==> b.refs == multiset{} && !b.valid)
    && (b.dirty ==> b.valid && y.Home(b.blockno) && b.blockno in pending)
    && (b.touched ==> b.valid && y.Home(b.blockno) && b.holder.Some? && b.holder.value in open)
    && (b.valid && !b.dirty && !b.touched ==> b.data == disk[b.blockno])
  }

  /** No block is cached twice. */
  ghost predicate Unique(bufs: seq<Buf>) {
    forall i, j :: 0 <= i < j < |bufs| && bufs[i].dev == 1 && bufs[j].dev == 1 ==> bufs[i].blockno != bufs[j].blockno
  }

  ghost predicate BufsOk(y: Layout, disk: seq<Block>, pending: set<nat>, open: set<Pid>, bufs: seq<Buf>) {
    && (forall i :: 0 <= i < |bufs| ==> BufOk(y, disk, pending, open, bufs[i]))
    && Unique(bufs)
  }

  ghost predicate Pinned(bufs: seq<Buf>, b: nat) {
    exists i :: 0 <= i < |bufs| && bufs[i].dirty && bufs[i].dev == 1 && bufs[i].blockno == b
  }

  ghost predicate BufSees(y: Layout, cur: map<nat, Block>, b: Buf) {
    b.valid && !b.touched && y.Home(b.blockno) ==> b.blockno in cur && b.data == cur[b.blockno]
  }

  /** Reads through the cache see `cur`, and pending blocks are pinned there. */
  ghost predicate CacheCurrent(y: Layout, bufs: seq<Buf>, pending: set<nat>, cur: map<nat, Block>) {
    && (forall i :: 0 <= i < |bufs| ==> BufSees(y, cur, bufs[i]))
    && (forall b :: b in pending ==> Pinned(bufs, b))
  }

  /** Home blocks that are not pending hold `cur`. */
  ghost predicate DiskCurrent(y: Layout, disk: seq<Block>, pending: set<nat>, cur: map<nat, Block>)
    requires |disk| == y.size
  {
    && (forall b :: b in cur <==> y.Home(b))
    && (forall b :: y.Home(b) && b !in pending ==> disk[b] == cur[b])
  }

  /** What install_trans would leave at the home locations, from the disk alone. */
  ghost predicate Recovers(y: Layout, disk: seq<Block>, durable: map<nat, Block>)
    requires y.Valid() && |disk| == y.size
  {
    var h := Head(disk[y.start]);
    && HeadOk(disk[y.start]) && |h| <= LOGSIZE && |h| < y.nlog
    && (forall b :: b in durable <==> y.Home(b))
    && (forall k :: 0 <= k < |h| ==> y.Home(h[k]) && durable[h[k]] == disk[y.start + 1 + k])
    && (forall b :: y.Home(b) && b !in h ==> durable[b] == disk[b])
    && Distinct(h)
  }

  /** The first t log slots hold the current contents of the first t logged blocks. */
  ghost predicate Copied(y: Layout, disk: seq<Block>, lh: seq<nat>, t: nat, cur: map<nat, Block>)
    requires y.Valid() && |disk| == y.size && t <= |lh| && t < y.nlog
  {
    forall k :: 0 <= k < t ==> lh[k] in cur && disk[y.start + 1 + k] == cur[lh[k]]
  }

  ghost predicate OnDisk(y: Layout, disk: seq<Block>, lh: seq<nat>, phase: Phase, a: Abs)
    requires y.Valid() && |disk| == y.size && |lh| <= LOGSIZE
  {
    var h := Head(disk[y.start]);
    match phase
    case Idle => h == []
    case Logging(t) => h == [] && t <= |lh| && (t > 0 ==> |lh| < y.nlog) && Copied(y, disk, lh, t, a.cur)
    case Heading => h == [] && |lh| < y.nlog && Copied(y, disk, lh, |lh|, a.cur)
    case Installing(t) => h == lh && a.cur == a.durable
    case Clearing => a.cur == a.durable
    case Closing => h == []
    case Booting => a.cur == a.durable
  }

  ghost predicate Sized(y: Layout, s: State) {
    y.Valid() && |s.disk| == y.size && |s.bufs| == NBUF && |s.log.lh| <= LOGSIZE
  }

  ghost predicate CacheSide(y: Layout, s: State, a: Abs) {
    && Control(y, s.log, s.phase, s.booting)
    && BufsOk(y, s.disk, Pending(s.phase, s.log.lh), s.log.ops.Keys, s.bufs)
    && (!s.booting ==> CacheCurrent(y, s.bufs, Pending(s.phase, s.log.lh), a.cur))
    && a.open == s.log.ops.Keys
  }

  ghost predicate DiskSide(y: Layout, s: State, a: Abs)
    requires Sized(y, s)
  {
    && (!s.phase.Booting? ==> DiskCurrent(y, s.disk, Pending(s.phase, s.log.lh), a.cur))
    && Recovers(y, s.disk, a.durable)
    && OnDisk(y, s.disk, s.log.lh, s.phase, a)
  }

  ghost predicate Core(y: Layout, s: State, a: Abs) {
    Sized(y, s) && CacheSide(y, s, a) && DiskSide(y, s, a)
  }

  ghost predicate Rel(y: Layout, s: State, a: Abs) {
    Core(y, s, a) && Log.Inv(s.log) && (!s.booting ==> Log.Settled(s.log))
  }

  // ----- what a step does to each part -------------------------------------

  /** Changing one buffer, but not what it caches, leaves the others alone. */
  lemma SetBuf(y: Layout, disk: seq<Block>, pending: set<nat>, open: set<Pid>, bufs: seq<Buf>, i: nat, b: Buf)
    requires BufsOk(y, disk, pending, open, bufs) && i < |bufs|
    requires BufOk(y, disk, pending, open, b) && b.dev == bufs[i].dev && b.blockno == bufs[i].blockno
    ensures BufsOk(y, disk, pending, open, bufs[i := b])
  {
  }

  /** ... and unless it drops a pin, keeps every pin. */
  lemma SetBufPins(bufs: seq<Buf>, i: nat, b: Buf)
    requires i < |bufs|
    requires bufs[i].dirty ==> b.dirty && b.dev == bufs[i].dev && b.blockno == bufs[i].blockno
    ensures forall c :: Pinned(bufs, c) ==> Pinned(bufs[i := b], c)
  {
    forall c | Pinned(bufs, c) ensures Pinned(bufs[i := b], c) {
      var j :| 0 <= j < |bufs| && bufs[j].dirty && bufs[j].dev == 1 && bufs[j].blockno == c;
      assert bufs[i := b][j].dirty;
    }
  }

  lemma SetBufSees(y: Layout, bufs: seq<Buf>, pending: set<nat>, cur: map<nat, Block>, i: nat, b: Buf)
    requires CacheCurrent(y, bufs, pending, cur) && i < |bufs| && BufSees(y, cur, b)
    requires bufs[i].dirty ==> b.dirty && b.dev == bufs[i].dev && b.blockno == bufs[i].blockno
    ensures CacheCurrent(y, bufs[i := b], pending, cur)
  {
    SetBufPins(bufs, i, b);
  }

  /** Writing a buffer through to its disk block disturbs no other buffer. */
  lemma WriteThrough(y: Layout, disk: seq<Block>, pending: set<nat>, pending': set<nat>, open: set<Pid>,
                     bufs: seq<Buf>, i: nat, data: Block)
    requires BufsOk(y, disk, pending, open, bufs)
    requires i < |bufs| && bufs[i].dev == 1 && bufs[i].valid && !bufs[i].touched
    requires forall j :: 0 <= j < |bufs| && j != i && bufs[j].dirty ==> bufs[j].blockno in pending'
    ensures bufs[i].blockno < |disk|
    ensures BufsOk(y, disk[bufs[i].blockno := data], pending', open, bufs[i := bufs[i].(data := data, dirty := false)])
  {
    assert BufOk(y, disk, pending, open, bufs[i]);
    var disk', bufs' := disk[bufs[i].blockno := data], bufs[i := bufs[i].(data := data, dirty := false)];
    forall j | 0 <= j < |bufs| ensures BufOk(y, disk', pending', open, bufs'[j]) {
      assert BufOk(y, disk, pending, open, bufs[j]);
    }
  }

  /** Writing a log slot while the log on disk is empty. */
  lemma LogAreaWrite(y: Layout, disk: seq<Block>, b: nat, data: Block, durable: map<nat, Block>)
    requires y.Valid() && |disk| == y.size && Recovers(y, disk, durable) && Head(disk[y.start]) == []
    requires y.start < b < y.start + y.nlog
    ensures Recovers(y, disk[b := data], durable) && Head(disk[b := data][y.start]) == []
  {
  }

  lemma SlotFilled(y: Layout, disk: seq<Block>, lh: seq<nat>, t: nat, cur: map<nat, Block>)
    requires y.Valid() && |disk| == y.size && t < |lh| < y.nlog
    requires DiskCurrent(y, disk, Elems(lh), cur) && Copied(y, disk, lh, t, cur) && lh[t] in cur
    ensures DiskCurrent(y, disk[y.start + t + 1 := cur[lh[t]]], Elems(lh), cur)
    ensures Copied(y, disk[y.start + t + 1 := cur[lh[t]]], lh, t + 1, cur)
  {
  }

  /** The commit point: one block write turns `cur` durable. */
  lemma HeaderCommits(y: Layout, disk: seq<Block>, lh: seq<nat>, data: Block, cur: map<nat, Block>)
    requires y.Valid() && |disk| == y.size && |lh| <= LOGSIZE && |lh| < y.nlog && Distinct(lh)
    requires forall b :: b in lh ==> y.Home(b)
    requires DiskCurrent(y, disk, Elems(lh), cur) && Copied(y, disk, lh, |lh|, cur) && HeadOk(data) && Head(data) == lh
    ensures Recovers(y, disk[y.start := data], cur)
    ensures DiskCurrent(y, disk[y.start := data], Elems(lh), cur)
  {
  }

  /** The log slot of a committed block holds what is durable. */
  lemma SlotIsDurable(y: Layout, disk: seq<Block>, h: seq<nat>, t: nat, cur: map<nat, Block>)
    requires y.Valid() && |disk| == y.size && Recovers(y, disk, cur)
    requires h == Head(disk[y.start]) && t < |h|
    ensures y.Home(h[t]) && h[t] in cur && cur[h[t]] == disk[y.start + t + 1]
  {
    assert y.start + t + 1 == y.start + 1 + t;
  }

  /** Installing a committed block, any number of times, changes nothing durable. */
  lemma InstallIsSafe(y: Layout, disk: seq<Block>, b: nat, cur: map<nat, Block>, x: Block)
    requires y.Valid() && |disk| == y.size && Recovers(y, disk, cur)
    requires y.Home(b) && x == cur[b]
    ensures Recovers(y, disk[b := x], cur) && disk[b := x][y.start] == disk[y.start]
  {
    assert disk[b := x][y.start] == disk[y.start];
  }

  lemma InstallIsCurrent(y: Layout, disk: seq<Block>, h: seq<nat>, t: nat, cur: map<nat, Block>, x: Block)
    requires y.Valid() && |disk| == y.size && t < |h| && Distinct(h) && y.Home(h[t])
    requires DiskCurrent(y, disk, Elems(h[t..]), cur) && x == cur[h[t]]
    ensures DiskCurrent(y, disk[h[t] := x], Elems(h[t + 1..]), cur)
  {
    ElemsNext(h, t);
  }

  /** Clearing the header once every logged block is home. */
  lemma ClearIsSafe(y: Layout, disk: seq<Block>, data: Block, durable: map<nat, Block>)
    requires y.Valid() && |disk| == y.size && DiskCurrent(y, disk, {}, durable) && HeadOk(data) && Head(data) == []
    ensures Recovers(y, disk[y.start := data], durable)
    ensures DiskCurrent(y, disk[y.start := data], {}, durable)
  {
  }

  // ----- one lemma per step ------------------------------------------------

  /** A step that changes one buffer and nothing the relation reads elsewhere. */
  lemma StepBuf(y: Layout, s: State, a: Abs, i: nat, b: Buf)
    requires Core(y, s, a) && i < NBUF
    requires BufOk(y, s.disk, Pending(s.phase, s.log.lh), s.log.ops.Keys, b)
    requires b.dirty == s.bufs[i].dirty && b.dev == s.bufs[i].dev && b.blockno == s.bufs[i].blockno
    requires !s.booting ==> BufSees(y, a.cur, b)
    ensures Core(y, s.(bufs := s.bufs[i := b]), a)
  {
    var pending := Pending(s.phase, s.log.lh);
    SetBuf(y, s.disk, pending, s.log.ops.Keys, s.bufs, i, b);
    if !s.booting {
      SetBufSees(y, s.bufs, pending, a.cur, i, b);
    }
  }

  lemma StepHit(y: Layout, s: State, a: Abs, p: Pid, i: nat, b: nat)
    requires Core(y, s, a) && CanHit(y, s, p, i, b)
    ensures Core(y, DoHit(y, s, p, i, b), a)
  {
    StepBuf(y, s, a, i, s.bufs[i].(refs := s.bufs[i].refs + multiset{p}));
  }

  lemma StepLock(y: Layout, s: State, a: Abs, p: Pid, i: nat)
    requires Core(y, s, a) && CanLock(y, s, p, i)
    ensures Core(y, DoLock(y, s, p, i), a)
  {
    StepBuf(y, s, a, i, s.bufs[i].(holder := Some(p)));
  }

  lemma StepUnlock(y: Layout, s: State, a: Abs, p: Pid, i: nat)
    requires Core(y, s, a) && CanUnlock(y, s, p, i)
    ensures Core(y, DoUnlock(y, s, p, i), a)
  {
    StepBuf(y, s, a, i, s.bufs[i].(holder := None));
  }

  lemma StepDrop(y: Layout, s: State, a: Abs, p: Pid, i: nat)
    requires Core(y, s, a) && CanDrop(y, s, p, i)
    ensures Core(y, DoDrop(y, s, p, i), a)
  {
    StepBuf(y, s, a, i, s.bufs[i].(refs := s.bufs[i].refs - multiset{p}));
  }

  lemma StepTouch(y: Layout, s: State, a: Abs, p: Pid, i: nat, data: Block)
    requires Core(y, s, a) && CanTouch(y, s, p, i, data)
    ensures Core(y, DoTouch(y, s, p, i, data), a)
  {
    StepBuf(y, s, a, i, s.bufs[i].(touched := true, data := data));
  }

  /** A pending block is pinned by the one buffer that caches it, so it is never read
      back from its stale home location. */
  lemma PinIsUnique(bufs: seq<Buf>, i: nat)
    requires Unique(bufs) && i < |bufs| && bufs[i].dev == 1 && Pinned(bufs, bufs[i].blockno)
    ensures bufs[i].dirty
  {
    var j :| 0 <= j < |bufs| && bufs[j].dirty && bufs[j].dev == 1 && bufs[j].blockno == bufs[i].blockno;
    assert i == j;
  }

  lemma StepFill(y: Layout, s: State, a: Abs, p: Pid, i: nat)
    requires Core(y, s, a) && CanFill(y, s, p, i)
    ensures Core(y, DoFill(y, s, p, i), a)
  {
    var c := s.bufs[i].blockno;
    assert BufOk(y, s.disk, Pending(s.phase, s.log.lh), s.log.ops.Keys, s.bufs[i]);
    if Pinned(s.bufs, c) {
      PinIsUnique(s.bufs, i);
    }
    StepBuf(y, s, a, i, s.bufs[i].(valid := true, data := s.disk[c]));
  }

  lemma StepRecycle(y: Layout, s: State, a: Abs, p: Pid, i: nat, b: nat)
    requires Core(y, s, a) && CanRecycle(y, s, p, i, b)
    ensures Core(y, DoRecycle(y, s, p, i, b), a)
  {
    var s' := DoRecycle(y, s, p, i, b);
    forall j | 0 <= j < |s.bufs| && j != i && s.bufs[j].dev == 1 ensures s.bufs[j].blockno != b {
      assert !Caches(s, j, b);
    }
    assert BufsOk(y, s.disk, Pending(s.phase, s.log.lh), s.log.ops.Keys, s'.bufs);
    if !s.booting {
      SetBufSees(y, s.bufs, Pending(s.phase, s.log.lh), a.cur, i, s'.bufs[i]);
    }
  }

  lemma StepBegin(y: Layout, s: State, a: Abs, p: Pid)
    requires Core(y, s, a) && CanBeginOp(y, s, p)
    ensures Core(y, DoBeginOp(y, s, p), a.(open := a.open + {p}))
  {
    var s' := DoBeginOp(y, s, p);
    assert s'.log.ops.Keys == s.log.ops.Keys + {p};
    assert BufsOk(y, s.disk, Elems(s.log.lh), s'.log.ops.Keys, s.bufs);
  }

  lemma StepGuard(y: Layout, s: State, a: Abs, p: Pid)
    requires Core(y, s, a) && CanGuard(y, s, p)
    ensures Core(y, DoGuard(y, s, p), a)
  {
  }

  lemma LogWriteCache(y: Layout, bufs: seq<Buf>, pending: set<nat>, cur: map<nat, Block>, i: nat)
    requires CacheCurrent(y, bufs, pending, cur) && Unique(bufs)
    requires i < |bufs| && bufs[i].dev == 1 && bufs[i].valid && forall j :: 0 <= j < |bufs| && bufs[j].valid ==>
          bufs[j].dev == 1
    ensures
      var c := bufs[i].blockno;
      CacheCurrent(y, bufs[i := bufs[i].(dirty := true, touched := false)],
                   pending + {c}, cur[c := bufs[i].data])
  {
    var b := bufs[i].(dirty := true, touched := false);
    SetBufPins(bufs, i, b);
    assert bufs[i := b][i].dirty;
    assert Pinned(bufs[i := b], bufs[i].blockno);
  }

  lemma LogWriteBufs(y: Layout, disk: seq<Block>, pending: set<nat>, open: set<Pid>, bufs: seq<Buf>, i: nat)
    requires BufsOk(y, disk, pending, open, bufs) && i < |bufs| && bufs[i].valid && y.Home(bufs[i].blockno)
    ensures BufsOk(y, disk, pending + {bufs[i].blockno}, open, bufs[i := bufs[i].(dirty := true, touched := false)])
  {
    var bufs' := bufs[i := bufs[i].(dirty := true, touched := false)];
    forall j | 0 <= j < |bufs| ensures BufOk(y, disk, pending + {bufs[i].blockno}, open, bufs'[j]) {
      assert BufOk(y, disk, pending, open, bufs[j]);
    }
  }

  lemma LogWriteControl(y: Layout, log: Log.State, p: Pid, b: nat)
    requires Control(y, log, Idle, false) && p in log.ops && y.Home(b) && |Log.Append(log, p, b).lh| <= LOGSIZE
    ensures Control(y, Log.Append(log, p, b), Idle, false)
    ensures Elems(Log.Append(log, p, b).lh) == Elems(log.lh) + {b}
    ensures Log.Append(log, p, b).ops.Keys == log.ops.Keys
  {
  }

  lemma LogWriteCacheSide(y: Layout, s: State, a: Abs, p: Pid, i: nat)
    requires Sized(y, s) && CacheSide(y, s, a) && CanLogWrite(y, s, p, i)
    requires |Log.Append(s.log, p, s.bufs[i].blockno).lh| <= LOGSIZE
    ensures CacheSide(y, DoLogWrite(y, s, p, i), Write(a, s.bufs[i].blockno, s.bufs[i].data))
  {
    var pending := Elems(s.log.lh);
    assert BufOk(y, s.disk, pending, s.log.ops.Keys, s.bufs[i]);
    LogWriteControl(y, s.log, p, s.bufs[i].blockno);
    LogWriteBufs(y, s.disk, pending, s.log.ops.Keys, s.bufs, i);
    LogWriteCache(y, s.bufs, pending, a.cur, i);
  }

  lemma LogWriteDiskSide(y: Layout, s: State, a: Abs, p: Pid, i: nat)
    requires Sized(y, s) && DiskSide(y, s, a) && s.phase.Idle? && CanLogWrite(y, s, p, i)
    requires |Log.Append(s.log, p, s.bufs[i].blockno).lh| <= LOGSIZE
    ensures DiskSide(y, DoLogWrite(y, s, p, i), Write(a, s.bufs[i].blockno, s.bufs[i].data))
  {
    var s' := DoLogWrite(y, s, p, i);
    assert Elems(s'.log.lh) == Elems(s.log.lh) + {s.bufs[i].blockno};
  }

  lemma StepLogWrite(y: Layout, s: State, a: Abs, p: Pid, i: nat)
    requires Core(y, s, a) && CanLogWrite(y, s, p, i)
    requires |Log.Append(s.log, p, s.bufs[i].blockno).lh| <= LOGSIZE
    ensures Core(y, DoLogWrite(y, s, p, i), Write(a, s.bufs[i].blockno, s.bufs[i].data))
  {
    LogWriteCacheSide(y, s, a, p, i);
    LogWriteDiskSide(y, s, a, p, i);
  }

  lemma StepEndOp(y: Layout, s: State, a: Abs, p: Pid)
    requires Core(y, s, a) && CanEndOp(y, s, p)
    requires s.log.outstanding == 1 ==> s.log.ops - {p} == map[]
    ensures Core(y, DoEndOp(y, s, p), a.(open := a.open - {p}))
  {
    var s' := DoEndOp(y, s, p);
    assert Pending(s'.phase, s'.log.lh) == Elems(s.log.lh);
    assert s'.log.ops.Keys == s.log.ops.Keys - {p};
    assert BufsOk(y, s.disk, Elems(s.log.lh), s'.log.ops.Keys, s.bufs);
  }

  /** The committing process holds a log-area buffer that is in step with the disk. */
  lemma LogBuffer(y: Layout, s: State, a: Abs, i: nat, b: nat)
    requires Sized(y, s) && CacheSide(y, s, a) && Has(s, s.worker, i, b) && b < y.size && !y.Home(b)
    ensures !s.bufs[i].dirty && !s.bufs[i].touched && s.bufs[i].data == s.disk[b]
  {
    assert BufOk(y, s.disk, Pending(s.phase, s.log.lh), s.log.ops.Keys, s.bufs[i]);
  }

  /** write_log copies what log_write last saw: buffer `from` holds the current contents. */
  lemma LoggedBuffer(y: Layout, s: State, a: Abs, i: nat, b: nat)
    requires Sized(y, s) && CacheSide(y, s, a) && !s.booting && s.log.committing && Has(s, s.worker, i, b) && y.Home(b)
    ensures b in a.cur && s.bufs[i].data == a.cur[b]
  {
    assert BufOk(y, s.disk, Pending(s.phase, s.log.lh), s.log.ops.Keys, s.bufs[i]);
    assert BufSees(y, a.cur, s.bufs[i]);
  }

  lemma CopyToLogCacheSide(y: Layout, s: State, a: Abs, to: nat, from: nat)
    requires Sized(y, s) && CacheSide(y, s, a) && CanCopyToLog(y, s, to, from) && |s.log.lh| < y.nlog
    ensures CacheSide(y, DoCopyToLog(y, s, to, from), a)
  {
    var s' := DoCopyToLog(y, s, to, from);
    LogBuffer(y, s, a, to, y.start + s.phase.tail + 1);
    WriteThrough(y, s.disk, Elems(s.log.lh), Elems(s.log.lh), s.log.ops.Keys, s.bufs, to, s.bufs[from].data);
    SetBufSees(y, s.bufs, Elems(s.log.lh), a.cur, to, s'.bufs[to]);
  }

  lemma CopyToLogDiskSide(y: Layout, s: State, a: Abs, to: nat, from: nat)
    requires Sized(y, s) && DiskSide(y, s, a) && CanCopyToLog(y, s, to, from) && |s.log.lh| < y.nlog
    requires s.log.lh[s.phase.tail] in a.cur && a.cur[s.log.lh[s.phase.tail]] == s.bufs[from].data
    ensures DiskSide(y, DoCopyToLog(y, s, to, from), a)
  {
    LogAreaWrite(y, s.disk, y.start + s.phase.tail + 1, s.bufs[from].data, a.durable);
    SlotFilled(y, s.disk, s.log.lh, s.phase.tail, a.cur);
  }

  lemma StepCopyToLog(y: Layout, s: State, a: Abs, to: nat, from: nat)
    requires Core(y, s, a) && CanCopyToLog(y, s, to, from) && |s.log.lh| < y.nlog
    ensures Core(y, DoCopyToLog(y, s, to, from), a)
  {
    CopyToLogCacheSide(y, s, a, to, from);
    LoggedBuffer(y, s, a, from, s.log.lh[s.phase.tail]);
    CopyToLogDiskSide(y, s, a, to, from);
  }

  lemma WriteHeadCacheSide(y: Layout, s: State, a: Abs, i: nat)
    requires Sized(y, s) && CacheSide(y, s, a) && CanWriteHead(y, s, i)
    ensures CacheSide(y, DoWriteHead(y, s, i), a.(durable := a.cur))
  {
    var s' := DoWriteHead(y, s, i);
    LogBuffer(y, s, a, i, y.start);
    WriteThrough(y, s.disk, Elems(s.log.lh), Elems(s.log.lh), s.log.ops.Keys, s.bufs, i, s'.bufs[i].data);
    SetBufSees(y, s.bufs, Elems(s.log.lh), a.cur, i, s'.bufs[i]);
    assert s.log.lh[0..] == s.log.lh;
  }

  lemma StepWriteHead(y: Layout, s: State, a: Abs, i: nat)
    requires Core(y, s, a) && CanWriteHead(y, s, i)
    ensures Core(y, DoWriteHead(y, s, i), a.(durable := a.cur))
  {
    WriteHeadCacheSide(y, s, a, i);
    HeadRoundTrip(s.bufs[i].data, s.log.lh);
    HeaderCommits(y, s.disk, s.log.lh, PutHead(s.bufs[i].data, s.log.lh), a.cur);
    assert s.log.lh[0..] == s.log.lh;
  }

  lemma InstallCache(y: Layout, bufs: seq<Buf>, cur: map<nat, Block>, to: nat, b: nat, pending: set<nat>)
    requires CacheCurrent(y, bufs, pending, cur) && to < |bufs|
    requires bufs[to].blockno == b && b in cur
    ensures CacheCurrent(y, bufs[to := bufs[to].(data := cur[b], dirty := false)], pending - {b}, cur)
  {
    var bufs' := bufs[to := bufs[to].(data := cur[b], dirty := false)];
    forall c | c in pending - {b} ensures Pinned(bufs', c) {
      var j :| 0 <= j < |bufs| && bufs[j].dirty && bufs[j].dev == 1 && bufs[j].blockno == c;
      assert bufs'[j].dirty;
    }
  }

  lemma InstallBufs(y: Layout, disk: seq<Block>, open: set<Pid>, bufs: seq<Buf>, to: nat, b: nat, pending: set<nat>,
                    data: Block)
    requires BufsOk(y, disk, pending, open, bufs) && to < |bufs|
    requires bufs[to].dev == 1 && bufs[to].blockno == b < |disk| && bufs[to].valid && !bufs[to].touched
    ensures BufsOk(y, disk[b := data], pending - {b}, open, bufs[to := bufs[to].(data := data, dirty := false)])
  {
    forall j | 0 <= j < |bufs| && j != to && bufs[j].dirty ensures bufs[j].blockno in pending - {b} {
      assert BufOk(y, disk, pending, open, bufs[j]);
    }
    WriteThrough(y, disk, pending, pending - {b}, open, bufs, to, data);
  }

  lemma Untouched(y: Layout, s: State, a: Abs, i: nat)
    requires Sized(y, s) && CacheSide(y, s, a) && (s.booting || s.log.committing) && i < NBUF
    ensures !s.bufs[i].touched
  {
    assert BufOk(y, s.disk, Pending(s.phase, s.log.lh), s.log.ops.Keys, s.bufs[i]);
  }

  lemma InstallCacheSide(y: Layout, s: State, a: Abs, from: nat, to: nat)
    requires Sized(y, s) && CacheSide(y, s, a) && CanInstallOne(y, s, from, to)
    requires s.log.lh[s.phase.tail] in a.cur && a.cur[s.log.lh[s.phase.tail]] == s.bufs[from].data
    ensures CacheSide(y, DoInstallOne(y, s, from, to), a)
  {
    var t := s.phase.tail;
    var b, pending := s.log.lh[t], Elems(s.log.lh[t..]);
    ElemsNext(s.log.lh, t);
    Untouched(y, s, a, to);
    InstallBufs(y, s.disk, s.log.ops.Keys, s.bufs, to, b, pending, a.cur[b]);
    if !s.booting {
      InstallCache(y, s.bufs, a.cur, to, b, pending);
    }
  }

  lemma InstallDiskSide(y: Layout, s: State, a: Abs, from: nat, to: nat)
    requires Sized(y, s) && DiskSide(y, s, a) && Distinct(s.log.lh) && CanInstallOne(y, s, from, to)
    requires y.Home(s.log.lh[s.phase.tail]) && a.cur[s.log.lh[s.phase.tail]] == s.bufs[from].data
    ensures DiskSide(y, DoInstallOne(y, s, from, to), a)
  {
    InstallParts(y, s.disk, s.log.lh, s.phase.tail, a, s.bufs[from].data);
  }

  lemma InstallParts(y: Layout, disk: seq<Block>, h: seq<nat>, t: nat, a: Abs, x: Block)
    requires y.Valid() && |disk| == y.size && |h| <= LOGSIZE && t < |h| && Distinct(h) && y.Home(h[t])
    requires DiskCurrent(y, disk, Elems(h[t..]), a.cur) && x == a.cur[h[t]]
    requires Recovers(y, disk, a.durable) && Head(disk[y.start]) == h && a.cur == a.durable
    ensures DiskCurrent(y, disk[h[t] := x], Elems(h[t + 1..]), a.cur)
    ensures Recovers(y, disk[h[t] := x], a.durable) && Head(disk[h[t] := x][y.start]) == h
  {
    InstallIsSafe(y, disk, h[t], a.cur, x);
    InstallIsCurrent(y, disk, h, t, a.cur, x);
  }

  lemma InstallSource(y: Layout, s: State, a: Abs)
    requires Sized(y, s) && DiskSide(y, s, a) && s.phase.Installing? && s.phase.tail < |s.log.lh|
    ensures y.Home(s.log.lh[s.phase.tail])
    ensures a.cur[s.log.lh[s.phase.tail]] == s.disk[y.start + s.phase.tail + 1]
  {
    SourceAt(y, s.disk, s.log.lh, s.phase.tail, a);
  }

  lemma SourceAt(y: Layout, disk: seq<Block>, h: seq<nat>, t: nat, a: Abs)
    requires y.Valid() && |disk| == y.size && |h| <= LOGSIZE && t < |h| && Recovers(y, disk, a.durable)
    requires Head(disk[y.start]) == h && a.cur == a.durable
    ensures y.Home(h[t]) && h[t] in a.cur && a.cur[h[t]] == disk[y.start + t + 1]
  {
    SlotIsDurable(y, disk, h, t, a.cur);
  }

  lemma StepInstallOne(y: Layout, s: State, a: Abs, from: nat, to: nat)
    requires Core(y, s, a) && CanInstallOne(y, s, from, to)
    ensures Core(y, DoInstallOne(y, s, from, to), a)
  {
    LogBuffer(y, s, a, from, y.start + s.phase.tail + 1);
    InstallSource(y, s, a);
    InstallDiskSide(y, s, a, from, to);
    InstallCacheSide(y, s, a, from, to);
  }

  lemma StepClearHead(y: Layout, s: State, a: Abs, i: nat)
    requires Core(y, s, a) && CanClearHead(y, s, i)
    ensures Core(y, DoClearHead(y, s, i), a)
  {
    var s' := DoClearHead(y, s, i);
    HeadRoundTrip(s.bufs[i].data, []);
    LogBuffer(y, s, a, i, y.start);
    WriteThrough(y, s.disk, {}, {}, s.log.ops.Keys, s.bufs, i, s'.bufs[i].data);
    ClearIsSafe(y, s.disk, s'.bufs[i].data, a.durable);
    if s.booting {
      forall j | 0 <= j < |s'.bufs| ensures BufSees(y, a.cur, s'.bufs[j]) {
        assert BufOk(y, s'.disk, {}, s.log.ops.Keys, s'.bufs[j]);
      }
    } else {
      SetBufSees(y, s.bufs, {}, a.cur, i, s'.bufs[i]);
    }
  }

  lemma StepReadHead(y: Layout, s: State, a: Abs, i: nat)
    requires Core(y, s, a) && CanReadHead(y, s, i)
    ensures Core(y, DoReadHead(y, s, i), a)
  {
    var s' := DoReadHead(y, s, i);
    LogBuffer(y, s, a, i, y.start);
    var h := Head(s.disk[y.start]);
    assert Control(y, s'.log, s'.phase, s'.booting);
    assert h[0..] == h;
    assert DiskCurrent(y, s.disk, Elems(h), a.cur);
  }

  lemma StepPhase(y: Layout, s: State, a: Abs, l: Label)
    requires Core(y, s, a) && Enabled(y, s, l)
    requires l.EndLogging? || l.DropHeader? || l.Close?
    ensures Core(y, Apply(y, s, l), AbsNext(s, a, l))
  {
    var s' := Apply(y, s, l);
    assert Pending(s'.phase, s'.log.lh) == Pending(s.phase, s.log.lh);
  }

  lemma StepCrash(y: Layout, s: State, a: Abs)
    requires Core(y, s, a)
    ensures Core(y, DoCrash(y, s), Abs(a.durable, a.durable, {}))
  {
  }

  lemma StepLogKept(y: Layout, s: State, a: Abs, l: Label)
    requires Rel(y, s, a) && Enabled(y, s, l)
    ensures Log.Inv(Apply(y, s, l).log)
  {
    match l
    case BeginOp(p) => Log.BeginKeeps(s.log, p);
    case LogWrite(p, i) => Log.AppendKeeps(s.log, p, s.bufs[i].blockno);
    case EndOp(p) => Log.EndKeeps(s.log, p);
    case DropHeader => Log.ForgetKeeps(s.log);
    case _ =>
  }

  lemma StepSettled(y: Layout, s: State, l: Label)
    requires Control(y, s.log, s.phase, s.booting) && Log.Inv(s.log) && (!s.booting ==> Log.Settled(s.log)) && Enabled(y, s, l)
    ensures !Apply(y, s, l).booting ==> Log.Settled(Apply(y, s, l).log)
  {
    var s' := Apply(y, s, l);
    match l
    case EndOp(p) => Log.EndKeeps(s.log, p);
    case BeginOp(p) => assert p in s'.log.ops;
    case LogWrite(p, i) => assert p in s'.log.ops;
    case _ =>
  }

  // ----- buffers and slots -------------------------------------------------

  /** A buffer that may not be recycled. */
  predicate IsBusy(s: State, i: nat) {
    i < |s.bufs| && (s.bufs[i].dirty || s.bufs[i].refs != multiset{})
  }

  ghost function Busy(s: State): set<nat> {
    set i: nat | i < |s.bufs| && IsBusy(s, i)
  }

  lemma {:induction false} BelowCount(a: set<nat>, n: nat)
    requires forall x :: x in a ==> x < n
    ensures |a| <= n && (|a| == n <==> forall x :: 0 <= x < n ==> x in a)
    decreases n
  {
    if n == 0 {
      assert a == {};
    } else {
      BelowCount(a - {n - 1}, n - 1);
      if n - 1 in a {
        assert a == (a - {n - 1}) + {n - 1};
      } else {
        assert a == a - {n - 1};
      }
    }
  }

  /** bread does not panic for want of buffers if and only if the block is cached or not all
      buffers are dirty or in use. */
  lemma BreadIff(y: Layout, s: State, p: Pid, b: nat)
    requires |s.bufs| == NBUF && MayRead(y, s, p, b)
    ensures (exists i :: CanHit(y, s, p, i, b) || CanRecycle(y, s, p, i, b)) <==>
            (exists i :: Caches(s, i, b)) || |Busy(s)| < NBUF
  {
    BelowCount(Busy(s), NBUF);
    if i :| Caches(s, i, b) {
      assert CanHit(y, s, p, i, b);
    } else if |Busy(s)| < NBUF {
      var i :| 0 <= i < NBUF && i !in Busy(s);
      assert CanRecycle(y, s, p, i, b);
    } else {
      forall i: nat ensures !CanRecycle(y, s, p, i, b) {
        assert i < NBUF ==> i in Busy(s);
      }
    }
  }

  /** The buffers that pin the first n logged blocks. */
  lemma {:induction false} PinsCount(bufs: seq<Buf>, lh: seq<nat>, n: nat) returns (pins: set<nat>)
    requires n <= |lh| && Distinct(lh) && forall b :: b in lh ==> Pinned(bufs, b)
    ensures |pins| == n && forall i :: i in pins ==> i < |bufs| && bufs[i].dirty && bufs[i].dev == 1 && bufs[i].blockno in lh[..n]
  {
    if n == 0 {
      pins := {};
    } else {
      var rest := PinsCount(bufs, lh, n - 1);
      assert lh[n - 1] in lh;
      var i :| 0 <= i < |bufs| && bufs[i].dirty && bufs[i].dev == 1 && bufs[i].blockno == lh[n - 1];
      assert i !in rest;
      assert lh[..n] == lh[..n - 1] + [lh[n - 1]];
      pins := rest + {i};
    }
  }

  /** When LOGSIZE blocks are logged, all buffers hold them: write_log gets none for the log,
      and the commit cannot go on. */
  lemma FullLogStuck(y: Layout, s: State, a: Abs, to: nat, from: nat)
    requires Core(y, s, a) && s.phase.Logging? && |s.log.lh| >= NBUF && y.nlog > 1
    ensures |Busy(s)| == NBUF && !CanCopyToLog(y, s, to, from)
  {
    AllPinned(s.bufs, s.log.lh);
    BelowCount(Busy(s), NBUF);
    if to < NBUF {
      assert y.Home(s.bufs[to].blockno) && (s.phase.tail < |s.log.lh| ==> s.phase.tail + 1 < y.nlog);
    }
  }

  lemma AllPinned(bufs: seq<Buf>, lh: seq<nat>)
    requires |bufs| == NBUF <= |lh| && Distinct(lh) && forall b :: b in lh ==> Pinned(bufs, b)
    ensures forall i :: 0 <= i < NBUF ==> bufs[i].dirty && bufs[i].blockno in lh
  {
    var pins := PinsCount(bufs, lh, NBUF);
    BelowCount(pins, NBUF);
  }

  /** write_log is about to use a slot of the log area, if there need be one for all. */
  predicate Room(y: Layout, s: State, l: Label) {
    l.CopyToLog? ==> |s.log.lh| < y.nlog || y.nlog >= LOGSIZE
  }

  lemma RoomIsEnough(y: Layout, s: State, a: Abs, l: Label)
    requires Core(y, s, a) && Enabled(y, s, l) && Room(y, s, l)
    ensures l.CopyToLog? ==> |s.log.lh| < y.nlog
  {
    if l.CopyToLog? && |s.log.lh| >= y.nlog {
      FullLogStuck(y, s, a, l.to, l.from);
    }
  }

  /** Without one it writes a home block, before the commit. */
  lemma OverrunDamages(y: Layout, s: State, to: nat, from: nat)
    requires Sized(y, s) && CanCopyToLog(y, s, to, from)
    ensures y.Home(y.start + s.phase.tail + 1) <==> s.phase.tail + 1 >= y.nlog
    ensures DoCopyToLog(y, s, to, from).disk == s.disk[y.start + s.phase.tail + 1 := s.bufs[from].data]
  {
  }

  predicate IsCacheStep(l: Label) {
    l.Hit? || l.Recycle? || l.Lock? || l.Fill? || l.Touch? || l.Unlock? || l.Drop?
  }

  predicate IsCallStep(l: Label) {
    l.BeginOp? || l.Guard? || l.LogWrite? || l.EndOp?
  }

  lemma CacheStepRefines(y: Layout, s: State, a: Abs, l: Label)
    requires Core(y, s, a) && Enabled(y, s, l) && IsCacheStep(l)
    ensures Core(y, Apply(y, s, l), AbsNext(s, a, l))
  {
    match l
    case Hit(p, i, b) => StepHit(y, s, a, p, i, b);
    case Recycle(p, i, b) => StepRecycle(y, s, a, p, i, b);
    case Lock(p, i) => StepLock(y, s, a, p, i);
    case Fill(p, i) => StepFill(y, s, a, p, i);
    case Touch(p, i, data) => StepTouch(y, s, a, p, i, data);
    case Unlock(p, i) => StepUnlock(y, s, a, p, i);
    case Drop(p, i) => StepDrop(y, s, a, p, i);
  }

  lemma CallStepRefines(y: Layout, s: State, a: Abs, l: Label)
    requires Core(y, s, a) && Enabled(y, s, l) && IsCallStep(l)
    requires l.LogWrite? ==> |Log.Append(s.log, l.p, s.bufs[l.i].blockno).lh| <= LOGSIZE
    requires l.EndOp? && s.log.outstanding == 1 ==> s.log.ops - {l.p} == map[]
    ensures Core(y, Apply(y, s, l), AbsNext(s, a, l))
  {
    match l
    case BeginOp(p) => StepBegin(y, s, a, p);
    case Guard(p) => StepGuard(y, s, a, p);
    case LogWrite(p, i) => StepLogWrite(y, s, a, p, i);
    case EndOp(p) => StepEndOp(y, s, a, p);
  }

  lemma CommitStepRefines(y: Layout, s: State, a: Abs, l: Label)
    requires Core(y, s, a) && Enabled(y, s, l) && !IsCacheStep(l) && !IsCallStep(l)
    requires l.CopyToLog? ==> |s.log.lh| < y.nlog
    ensures Core(y, Apply(y, s, l), AbsNext(s, a, l))
  {
    match l
    case CopyToLog(to, from) => StepCopyToLog(y, s, a, to, from);
    case WriteHead(i) => StepWriteHead(y, s, a, i);
    case InstallOne(from, to) => StepInstallOne(y, s, a, from, to);
    case ClearHead(i) => StepClearHead(y, s, a, i);
    case ReadHead(i) => StepReadHead(y, s, a, i);
    case Crash => StepCrash(y, s, a);
    case _ => StepPhase(y, s, a, l);
  }

  /** Every step keeps the relation, with the plain map taking the matching step. */
  lemma StepRefines(y: Layout, s: State, a: Abs, l: Label)
    requires Rel(y, s, a) && Enabled(y, s, l) && Room(y, s, l)
    ensures Rel(y, Apply(y, s, l), AbsNext(s, a, l))
  {
    StepLogKept(y, s, a, l);
    StepSettled(y, s, l);
    RoomIsEnough(y, s, a, l);
    if IsCacheStep(l) {
      CacheStepRefines(y, s, a, l);
    } else if IsCallStep(l) {
      if l.LogWrite? {
        Log.AppendFits(s.log, l.p, s.bufs[l.i].blockno);
      } else if l.EndOp? && s.log.outstanding == 1 {
        Log.LastEndCloses(s.log, l.p);
      }
      CallStepRefines(y, s, a, l);
    } else {
      CommitStepRefines(y, s, a, l);
    }
  }

  lemma StepIsSpecStep(y: Layout, s: State, a: Abs, l: Label)
    requires Rel(y, s, a) && Enabled(y, s, l)
    ensures SpecNext(a, AbsNext(s, a, l))
  {
    match l
    case LogWrite(p, i) =>
      assert p in a.open;
      assert s.bufs[i].blockno in a.cur;
    case EndOp(p) => assert p in a.open;
    case _ =>
  }

  // ----- whole runs --------------------------------------------------------

  /** write_log has a slot for every logged block, at each of its steps. */
  predicate Roomy(y: Layout, s: State, ls: seq<Label>)
    requires CanRun(y, s, ls)
    decreases |ls|
  {
    ls == [] || (Room(y, s, ls[0]) && Roomy(y, Apply(y, s, ls[0]), ls[1..]))
  }

  lemma {:induction false} AmpleIsRoomy(y: Layout, s: State, ls: seq<Label>)
    requires y.nlog >= LOGSIZE && CanRun(y, s, ls)
    ensures Roomy(y, s, ls)
    decreases |ls|
  {
    if ls != [] {
      AmpleIsRoomy(y, Apply(y, s, ls[0]), ls[1..]);
    }
  }

  predicate CanRun(y: Layout, s: State, ls: seq<Label>)
    decreases |ls|
  {
    ls == [] || (Enabled(y, s, ls[0]) && CanRun(y, Apply(y, s, ls[0]), ls[1..]))
  }

  function After(y: Layout, s: State, ls: seq<Label>): State
    requires CanRun(y, s, ls)
    decreases |ls|
  {
    if ls == [] then s else After(y, Apply(y, s, ls[0]), ls[1..])
  }

  /** The plain map's states along a run, first and last included. */
  function AbsTrace(y: Layout, s: State, a: Abs, ls: seq<Label>): seq<Abs>
    requires CanRun(y, s, ls)
    decreases |ls|
  {
    [a] + if ls == [] then [] else AbsTrace(y, Apply(y, s, ls[0]), AbsNext(s, a, ls[0]), ls[1..])
  }

  ghost predicate IsSpecRun(tr: seq<Abs>) {
    |tr| > 0 && forall i :: 0 < i < |tr| ==> SpecNext(tr[i - 1], tr[i])
  }

  /** Any run of the machine, crashes included, is a run of the plain map, and ends in
      related states. */
  lemma {:induction false} RunRefines(y: Layout, s: State, a: Abs, ls: seq<Label>)
    requires Rel(y, s, a) && CanRun(y, s, ls) && Roomy(y, s, ls)
    ensures IsSpecRun(AbsTrace(y, s, a, ls)) && AbsTrace(y, s, a, ls)[0] == a
    ensures Rel(y, After(y, s, ls), AbsTrace(y, s, a, ls)[|AbsTrace(y, s, a, ls)| - 1])
    decreases |ls|
  {
    if ls != [] {
      var s', a' := Apply(y, s, ls[0]), AbsNext(s, a, ls[0]);
      StepRefines(y, s, a, ls[0]);
      StepIsSpecStep(y, s, a, ls[0]);
      RunRefines(y, s', a', ls[1..]);
      Prepend(a, AbsTrace(y, s', a', ls[1..]));
      assert AbsTrace(y, s, a, ls) == [a] + AbsTrace(y, s', a', ls[1..]);
    }
  }

  lemma Prepend(a: Abs, tr: seq<Abs>)
    requires IsSpecRun(tr) && SpecNext(a, tr[0])
    ensures IsSpecRun([a] + tr)
  {
    forall i | 0 < i < |[a] + tr| ensures SpecNext(([a] + tr)[i - 1], ([a] + tr)[i]) {
      if i > 1 {
        assert SpecNext(tr[i - 2], tr[i - 1]);
      }
    }
  }

  /** In the plain map, the durable copy is always the contents of some moment so far at
      which no call was in progress: calls become durable whole, or not at all. */
  lemma {:induction false} DurableIsQuiescent(tr: seq<Abs>)
    requires IsSpecRun(tr) && tr[0].cur == tr[0].durable && tr[0].open == {}
    ensures exists j :: 0 <= j < |tr| && tr[j].open == {} && tr[j].cur == tr[|tr| - 1].durable
    decreases |tr|
  {
    if |tr| == 1 {
      assert tr[0].open == {};
    } else {
      var front := tr[..|tr| - 1];
      DurableIsQuiescent(front);
      var j :| 0 <= j < |front| && front[j].open == {} && front[j].cur == front[|front| - 1].durable;
      var a, a' := tr[|tr| - 2], tr[|tr| - 1];
      assert SpecNext(a, a');
      if a'.durable == a.durable {
        assert tr[j] == front[j];
      } else {
        assert a'.open == {} && a'.cur == a'.durable;
      }
    }
  }

  /** A disk that mkfs, or a crash at any point of a run, may leave behind. */
  ghost predicate Bootable(y: Layout, disk: seq<Block>) {
    && y.Valid() && |disk| == y.size
    && HeadOk(disk[y.start]) && |Head(disk[y.start])| < y.nlog
    && Distinct(Head(disk[y.start]))
    && forall b :: b in Head(disk[y.start]) ==> y.Home(b)
  }

  function Find(h: seq<nat>, b: nat): (k: nat)
    requires b in h
    ensures k < |h| && h[k] == b
  {
    if h[0] == b then 0 else 1 + Find(h[1..], b)
  }

  /** What recovery makes of a disk. */
  function Image(y: Layout, disk: seq<Block>): map<nat, Block>
    requires y.Valid() && |disk| == y.size
  {
    var h := Head(disk[y.start]);
    map b: nat | b < y.size && y.Home(b) ::
      if b in h && y.start + 1 + Find(h, b) < y.size then disk[y.start + 1 + Find(h, b)] else disk[b]
  }

  function Boot(disk: seq<Block>, worker: Pid): State {
    State(disk, seq(NBUF, _ => EmptyBuf), Log.Empty, Booting, true, worker)
  }

  lemma ImageRecovers(y: Layout, disk: seq<Block>)
    requires Bootable(y, disk)
    ensures Recovers(y, disk, Image(y, disk))
  {
    HeadIsShort(disk[y.start]);
    var h := Head(disk[y.start]);
    forall k | 0 <= k < |h| ensures y.Home(h[k]) && Image(y, disk)[h[k]] == disk[y.start + 1 + k] {
      assert h[k] in h;
      assert Find(h, h[k]) == k;
    }
  }

  lemma ImageIsUnique(y: Layout, disk: seq<Block>, d: map<nat, Block>, e: map<nat, Block>)
    requires y.Valid() && |disk| == y.size && Recovers(y, disk, d) && Recovers(y, disk, e)
    ensures d == e
  {
    var h := Head(disk[y.start]);
    forall b | b in d ensures d[b] == e[b] {
      if b in h {
        var k :| 0 <= k < |h| && h[k] == b;
      }
    }
  }

  lemma BootRelates(y: Layout, disk: seq<Block>, worker: Pid)
    requires Bootable(y, disk)
    ensures Rel(y, Boot(disk, worker), Abs(Image(y, disk), Image(y, disk), {}))
  {
    ImageRecovers(y, disk);
  }

  /** The home blocks of the disk are exactly the given ones. */
  ghost predicate Shows(y: Layout, disk: seq<Block>, m: map<nat, Block>) {
    && (forall b :: b in m <==> y.Home(b))
    && (forall b :: b in m ==> b < |disk| && disk[b] == m[b])
  }

  lemma IdleShowsDurable(y: Layout, s: State, a: Abs)
    requires Rel(y, s, a) && s.phase == Idle && s.log.lh == []
    ensures Shows(y, s.disk, a.durable) && Shows(y, s.disk, a.cur)
  {
    assert Pending(s.phase, s.log.lh) == {};
    forall b | b in a.durable ensures s.disk[b] == a.durable[b] {
      assert b !in Head(s.disk[y.start]);
    }
  }

  /** Crash safety.  Boot from any bootable disk and run in any way, with any number of
      crashes, also during recovery, so long as write_log finds a slot for each block.
      Whenever the log is idle and empty again, as it is when a recovery completes, every
      home block holds what the plain map held at one moment of the run at which no
      file-system call was in progress. */
  lemma RoomySafety(y: Layout, disk: seq<Block>, worker: Pid, ls: seq<Label>)
    requires Bootable(y, disk) && CanRun(y, Boot(disk, worker), ls) && Roomy(y, Boot(disk, worker), ls)
    requires After(y, Boot(disk, worker), ls).phase == Idle && After(y, Boot(disk, worker), ls).log.lh == []
    ensures
      var tr := AbsTrace(y, Boot(disk, worker), Abs(Image(y, disk), Image(y, disk), {}), ls);
      && IsSpecRun(tr)
      && exists j :: 0 <= j < |tr| && tr[j].open == {} && Shows(y, After(y, Boot(disk, worker), ls).disk, tr[j].cur)
  {
    var s0, a0 := Boot(disk, worker), Abs(Image(y, disk), Image(y, disk), {});
    BootRelates(y, disk, worker);
    RunRefines(y, s0, a0, ls);
    var tr := AbsTrace(y, s0, a0, ls);
    DurableIsQuiescent(tr);
    IdleShowsDurable(y, After(y, s0, ls), tr[|tr| - 1]);
  }

  /** With a log area of LOGSIZE blocks, as mkfs makes it, or more, that is every run. */
  lemma CrashSafety(y: Layout, disk: seq<Block>, worker: Pid, ls: seq<Label>)
    requires Bootable(y, disk) && y.nlog >= LOGSIZE && CanRun(y, Boot(disk, worker), ls)
    requires After(y, Boot(disk, worker), ls).phase == Idle && After(y, Boot(disk, worker), ls).log.lh == []
    ensures
      var tr := AbsTrace(y, Boot(disk, worker), Abs(Image(y, disk), Image(y, disk), {}), ls);
      && IsSpecRun(tr)
      && exists j :: 0 <= j < |tr| && tr[j].open == {} && Shows(y, After(y, Boot(disk, worker), ls).disk, tr[j].cur)
  {
    AmpleIsRoomy(y, Boot(disk, worker), ls);
    RoomySafety(y, disk, worker, ls);
  }

  /** A crash at any reachable moment leaves a bootable disk, and what recovery will make
      of it is exactly the durable copy. */
  lemma CrashImage(y: Layout, s: State, a: Abs)
    requires Rel(y, s, a)
    ensures Bootable(y, s.disk) && Image(y, s.disk) == a.durable
  {
    var h := Head(s.disk[y.start]);
    forall b | b in h ensures y.Home(b) {
      var k :| 0 <= k < |h| && h[k] == b;
    }
    ImageRecovers(y, s.disk);
    ImageIsUnique(y, s.disk, Image(y, s.disk), a.durable);
  }

  /** Durability.  When no call is open and no commit or recovery under way, recovery brings
      back all that reads see: end_op has not returned to the last caller before. */
  lemma QuietIsDurable(y: Layout, s: State, a: Abs)
    requires Rel(y, s, a) && !s.booting && s.phase.Idle? && s.log.ops == map[]
    ensures s.log.lh == [] && a.durable == a.cur && Image(y, s.disk) == a.cur && Shows(y, s.disk, a.cur)
  {
    IdleShowsDurable(y, s, a);
    CrashImage(y, s, a);
    forall b | b in a.durable ensures a.durable[b] == a.cur[b] {
      assert s.disk[b] == a.durable[b];
    }
  }

  /** Once the header is written the call that commits may rely on it: what reads see is
      what recovery brings back, up to the moment end_op returns. */
  lemma CommittedIsDurable(y: Layout, s: State, a: Abs)
    requires Rel(y, s, a) && (s.phase.Installing? || s.phase.Clearing? || s.phase.Closing?)
    ensures a.durable == a.cur
  {
    if s.phase.Closing? {
      forall b | b in a.durable ensures a.durable[b] == a.cur[b] {
        assert b !in Head(s.disk[y.start]);
      }
    }
  }

  /** The cache, the log and the disk read as one plain map: a block read outside
      recovery, and not being changed by its holder, is the current contents, whether it
      comes from the cache, or from a disk that has not been written yet. */
  lemma ReadSeesCurrent(y: Layout, s: State, a: Abs, p: Pid, i: nat, b: nat)
    requires Rel(y, s, a) && !s.booting && Has(s, p, i, b) && y.Home(b) && !s.bufs[i].touched
    ensures b in a.cur && s.bufs[i].data == a.cur[b]
    ensures forall j :: 0 <= j < |s.bufs| && j != i ==> !Caches(s, j, b)
  {
    assert BufSees(y, a.cur, s.bufs[i]);
    forall j | 0 <= j < |s.bufs| && j != i ensures !Caches(s, j, b) {
    }
  }

  /** Before the commit point no logged block has reached its home location, and every
      logged block sits, pinned, in the cache. */
  lemma NothingEscapesEarly(y: Layout, s: State, a: Abs)
    requires Rel(y, s, a) && (s.phase.Idle? || s.phase.Logging? || s.phase.Heading?)
    ensures forall b :: y.Home(b) ==> b in a.durable && s.disk[b] == a.durable[b]
    ensures forall b :: b in s.log.lh ==> Pinned(s.bufs, b)
    ensures forall p: Pid, i: nat, b: nat :: CanRecycle(y, s, p, i, b) && s.bufs[i].valid ==> s.bufs[i].blockno !in s.log.lh
  {
    forall b | y.Home(b) ensures b in a.durable && s.disk[b] == a.durable[b] {
      assert b !in Head(s.disk[y.start]);
    }
    forall b | b in s.log.lh ensures Pinned(s.bufs, b) {
      assert b in Pending(s.phase, s.log.lh);
    }
    forall p: Pid, i: nat, b: nat | CanRecycle(y, s, p, i, b) && s.bufs[i].valid ensures s.bufs[i].blockno !in s.log.lh {
      if s.bufs[i].blockno in s.log.lh {
        assert BufOk(y, s.disk, Pending(s.phase, s.log.lh), s.log.ops.Keys, s.bufs[i]);
        PinIsUnique(s.bufs, i);
      }
    }
  }
}
