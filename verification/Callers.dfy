/**
 What file-system calls ask of the storage and what they get (log.c, bio.c).  The plain map
 that module Storage refines is here computed from the calls alone: which block a bread asked
 for, what was put into it, and when log_write, end_op and the header write came.
 */
module Callers {
  import opened Common
  import opened Storage
  import Log

  /** For each process and buffer the block that it last asked for there, and for each buffer
      what has been put into it since the last log_write. */
  datatype Client = Client(asked: map<(Pid, nat), nat>, draft: map<nat, Block>)

  const Fresh := Client(map[], map[])

  function Told(c: Client, l: Label): Client {
    match l
    case Hit(p, i, b) => c.(asked := c.asked[(p, i) := b])
    case Recycle(p, i, b) => c.(asked := c.asked[(p, i) := b])
    case Touch(p, i, data) => c.(draft := c.draft[i := data])
    case LogWrite(p, i) => c.(draft := c.draft - {i})
    case Crash => Fresh
    case _ => c
  }

  /** log_write makes current what was put into the block that was asked for. */
  function Plain(c: Client, a: Abs, l: Label): Abs {
    match l
    case BeginOp(p) => a.(open := a.open + {p})
    case LogWrite(p, i) => if (p, i) in c.asked && i in c.draft then Write(a, c.asked[(p, i)], c.draft[i]) else a
    case EndOp(p) => a.(open := a.open - {p})
    case WriteHead(i) => a.(durable := a.cur)
    case Crash => Abs(a.durable, a.durable, {})
    case _ => a
  }

  function PlainTrace(c: Client, a: Abs, ls: seq<Label>): seq<Abs>
    decreases |ls|
  {
    [a] + if ls == [] then [] else PlainTrace(Told(c, ls[0]), Plain(c, a, ls[0]), ls[1..])
  }

  function ToldBy(c: Client, ls: seq<Label>): Client
    decreases |ls|
  {
    if ls == [] then c else ToldBy(Told(c, ls[0]), ls[1..])
  }

  /** The buffers hold what was asked for and what was put into them. */
  ghost predicate Knows(bufs: seq<Buf>, c: Client) {
    && (forall i: nat, p :: i < |bufs| && p in bufs[i].refs ==> (p, i) in c.asked && c.asked[(p, i)] == bufs[i].blockno)
    && (forall i: nat :: i < |bufs| ==> (i in c.draft <==> bufs[i].touched))
    && (forall i: nat :: i < |bufs| && i in c.draft ==> c.draft[i] == bufs[i].data)
  }

  /** One buffer changes, and what is known of it. */
  lemma KnowsSet(bufs: seq<Buf>, c: Client, i: nat, b: Buf, c': Client)
    requires Knows(bufs, c) && i < |bufs|
    requires forall j: nat, p :: j != i && (p, j) in c.asked ==> (p, j) in c'.asked && c'.asked[(p, j)] == c.asked[(p, j)]
    requires forall j: nat :: j != i ==> (j in c'.draft <==> j in c.draft) && (j in c.draft ==> c'.draft[j] == c.draft[j])
    requires forall p :: p in b.refs ==> (p, i) in c'.asked && c'.asked[(p, i)] == b.blockno
    requires (i in c'.draft <==> b.touched) && (i in c'.draft ==> c'.draft[i] == b.data)
    ensures Knows(bufs[i := b], c')
  {
  }

  lemma KnowsCache(y: Layout, s: State, a: Abs, c: Client, l: Label)
    requires Core(y, s, a) && Enabled(y, s, l) && Knows(s.bufs, c) && IsCacheStep(l)
    ensures Knows(Apply(y, s, l).bufs, Told(c, l))
  {
    var i := l.i;
    KnowsSet(s.bufs, c, i, Apply(y, s, l).bufs[i], Told(c, l));
  }

  /** commit and recovery write to buffers that no call has changed. */
  lemma KnowsWrite(y: Layout, s: State, a: Abs, c: Client, i: nat, b: Buf)
    requires Core(y, s, a) && Knows(s.bufs, c) && i < |s.bufs| && !s.phase.Idle?
    requires b.refs == s.bufs[i].refs && b.blockno == s.bufs[i].blockno && b.touched == s.bufs[i].touched
    ensures Knows(s.bufs[i := b], c)
  {
    Untouchable(y, s, a, i);
    KnowsSet(s.bufs, c, i, b, c);
  }

  predicate IsWrite(l: Label) {
    l.CopyToLog? || l.WriteHead? || l.InstallOne? || l.ClearHead?
  }

  lemma KnowsCommit(y: Layout, s: State, a: Abs, c: Client, l: Label)
    requires Core(y, s, a) && Enabled(y, s, l) && Knows(s.bufs, c) && IsWrite(l)
    ensures Knows(Apply(y, s, l).bufs, c)
  {
    var i := if l.CopyToLog? || l.InstallOne? then l.to else l.i;
    KnowsWrite(y, s, a, c, i, Apply(y, s, l).bufs[i]);
  }

  lemma KnowsLog(y: Layout, s: State, c: Client, p: Pid, i: nat)
    requires CanLogWrite(y, s, p, i) && Knows(s.bufs, c)
    ensures Knows(DoLogWrite(y, s, p, i).bufs, Told(c, LogWrite(p, i)))
  {
    KnowsSet(s.bufs, c, i, DoLogWrite(y, s, p, i).bufs[i], Told(c, LogWrite(p, i)));
  }

  lemma KnowsStep(y: Layout, s: State, a: Abs, c: Client, l: Label)
    requires Core(y, s, a) && Enabled(y, s, l) && Knows(s.bufs, c)
    ensures Knows(Apply(y, s, l).bufs, Told(c, l))
  {
    if IsCacheStep(l) {
      KnowsCache(y, s, a, c, l);
    } else if IsWrite(l) {
      KnowsCommit(y, s, a, c, l);
    } else if l.LogWrite? {
      KnowsLog(y, s, c, l.p, l.i);
    } else if !l.Crash? {
      assert Apply(y, s, l).bufs == s.bufs && Told(c, l) == c;
    }
  }

  /** No buffer has been changed and not logged while no call is open. */
  lemma Untouchable(y: Layout, s: State, a: Abs, i: nat)
    requires Core(y, s, a) && i < |s.bufs| && !s.phase.Idle?
    ensures !s.bufs[i].touched
  {
    assert BufOk(y, s.disk, Pending(s.phase, s.log.lh), s.log.ops.Keys, s.bufs[i]);
  }

  lemma PlainIs(y: Layout, s: State, a: Abs, c: Client, l: Label)
    requires Core(y, s, a) && Enabled(y, s, l) && Knows(s.bufs, c)
    ensures AbsNext(s, a, l) == Plain(c, a, l)
  {
    if l.LogWrite? {
      assert BufOk(y, s.disk, Pending(s.phase, s.log.lh), s.log.ops.Keys, s.bufs[l.i]);
      assert BufSees(y, a.cur, s.bufs[l.i]);
      var b := s.bufs[l.i];
      if !b.touched {
        assert a.cur[b.blockno := b.data] == a.cur;
      }
    }
  }

  /** The run of the plain map is what the callers make of it. */
  lemma {:induction false} FromCalls(y: Layout, s: State, a: Abs, c: Client, ls: seq<Label>)
    requires Rel(y, s, a) && Knows(s.bufs, c) && CanRun(y, s, ls) && Roomy(y, s, ls)
    ensures AbsTrace(y, s, a, ls) == PlainTrace(c, a, ls)
    ensures Knows(After(y, s, ls).bufs, ToldBy(c, ls))
    decreases |ls|
  {
    if ls != [] {
      var l := ls[0];
      StepRefines(y, s, a, l);
      KnowsStep(y, s, a, c, l);
      PlainIs(y, s, a, c, l);
      FromCalls(y, Apply(y, s, l), AbsNext(s, a, l), Told(c, l), ls[1..]);
    }
  }

  function Last(tr: seq<Abs>): Abs
    requires tr != []
  {
    tr[|tr| - 1]
  }

  lemma BootCalls(y: Layout, disk: seq<Block>, worker: Pid, ls: seq<Label>)
    requires Bootable(y, disk) && CanRun(y, Boot(disk, worker), ls) && Roomy(y, Boot(disk, worker), ls)
    ensures
      var s0, a0 := Boot(disk, worker), Abs(Image(y, disk), Image(y, disk), {});
      var tr := PlainTrace(Fresh, a0, ls);
      && AbsTrace(y, s0, a0, ls) == tr && Rel(y, After(y, s0, ls), Last(tr))
      && Knows(After(y, s0, ls).bufs, ToldBy(Fresh, ls))
  {
    var s0, a0 := Boot(disk, worker), Abs(Image(y, disk), Image(y, disk), {});
    BootRelates(y, disk, worker);
    RunRefines(y, s0, a0, ls);
    FromCalls(y, s0, a0, Fresh, ls);
  }

  /** Durability.  Once end_op has returned to the last caller, the home blocks are what the
      calls have written: no crash takes any of it back. */
  lemma EndedIsDurable(y: Layout, disk: seq<Block>, worker: Pid, ls: seq<Label>)
    requires Bootable(y, disk) && CanRun(y, Boot(disk, worker), ls) && Roomy(y, Boot(disk, worker), ls)
    ensures
      var s := After(y, Boot(disk, worker), ls);
      var a := Last(PlainTrace(Fresh, Abs(Image(y, disk), Image(y, disk), {}), ls));
      a.open == {} && !s.booting && s.phase.Idle? ==>
        |s.disk| == y.size && Shows(y, s.disk, a.cur) && Image(y, s.disk) == a.cur == a.durable
  {
    BootCalls(y, disk, worker, ls);
    var s := After(y, Boot(disk, worker), ls);
    var a := Last(PlainTrace(Fresh, Abs(Image(y, disk), Image(y, disk), {}), ls));
    if a.open == {} && !s.booting && s.phase.Idle? {
      QuietIsDurable(y, s, a);
    }
  }

  /** And at every moment, recovery gives what the calls had written at one at which none was
      open, the last header write's. */
  lemma CrashGives(y: Layout, disk: seq<Block>, worker: Pid, ls: seq<Label>)
    requires Bootable(y, disk) && CanRun(y, Boot(disk, worker), ls) && Roomy(y, Boot(disk, worker), ls)
    ensures
      var s := After(y, Boot(disk, worker), ls);
      var tr := PlainTrace(Fresh, Abs(Image(y, disk), Image(y, disk), {}), ls);
      && Bootable(y, s.disk) && Image(y, s.disk) == Last(tr).durable
      && exists j :: 0 <= j < |tr| && tr[j].open == {} && tr[j].cur == Last(tr).durable
  {
    BootCalls(y, disk, worker, ls);
    var s0, a0 := Boot(disk, worker), Abs(Image(y, disk), Image(y, disk), {});
    BootRelates(y, disk, worker);
    RunRefines(y, s0, a0, ls);
    var tr := PlainTrace(Fresh, a0, ls);
    DurableIsQuiescent(tr);
    CrashImage(y, After(y, s0, ls), Last(tr));
  }

  /** What a caller finds in a buffer it has from bread: what it put there, or else the current
      contents of the block that it asked for. */
  lemma BreadGives(y: Layout, disk: seq<Block>, worker: Pid, ls: seq<Label>, p: Pid, i: nat)
    requires Bootable(y, disk) && CanRun(y, Boot(disk, worker), ls) && Roomy(y, Boot(disk, worker), ls)
    ensures
      var s, c := After(y, Boot(disk, worker), ls), ToldBy(Fresh, ls);
      var a := Last(PlainTrace(Fresh, Abs(Image(y, disk), Image(y, disk), {}), ls));
      Holds(s, p, i) && s.bufs[i].valid && !s.booting ==>
        && (p, i) in c.asked && s.bufs[i].blockno == c.asked[(p, i)]
        && (y.Home(c.asked[(p, i)]) ==>
              && c.asked[(p, i)] in a.cur
              && s.bufs[i].data == if i in c.draft then c.draft[i] else a.cur[c.asked[(p, i)]])
  {
    BootCalls(y, disk, worker, ls);
    var s, c := After(y, Boot(disk, worker), ls), ToldBy(Fresh, ls);
    var a := Last(PlainTrace(Fresh, Abs(Image(y, disk), Image(y, disk), {}), ls));
    if Holds(s, p, i) && s.bufs[i].valid && !s.booting {
      assert BufOk(y, s.disk, Pending(s.phase, s.log.lh), s.log.ops.Keys, s.bufs[i]);
      assert BufSees(y, a.cur, s.bufs[i]);
    }
  }

  // ----- who has which buffer ----------------------------------------------

  /** The references from bread and not yet given back by brelse, and who has locked what. */
  datatype Desk = Desk(refs: multiset<(Pid, nat)>, lock: map<nat, Pid>)

  function DeskNext(d: Desk, l: Label): Desk {
    match l
    case Hit(p, i, b) => d.(refs := d.refs + multiset{(p, i)})
    case Recycle(p, i, b) => d.(refs := d.refs + multiset{(p, i)})
    case Drop(p, i) => d.(refs := d.refs - multiset{(p, i)})
    case Lock(p, i) => d.(lock := d.lock[i := p])
    case Unlock(p, i) => d.(lock := d.lock - {i})
    case Crash => Desk(multiset{}, map[])
    case _ => d
  }

  function DeskBy(d: Desk, ls: seq<Label>): Desk
    decreases |ls|
  {
    if ls == [] then d else DeskBy(DeskNext(d, ls[0]), ls[1..])
  }

  ghost predicate Counted(refs: multiset<Pid>, all: multiset<(Pid, nat)>, i: nat) {
    forall p :: refs[p] == all[(p, i)]
  }

  lemma CountedMove(refs: multiset<Pid>, all: multiset<(Pid, nat)>, i: nat, p: Pid, j: nat)
    requires Counted(refs, all, i)
    ensures Counted(if j == i then refs + multiset{p} else refs, all + multiset{(p, j)}, i)
    ensures Counted(if j == i then refs - multiset{p} else refs, all - multiset{(p, j)}, i)
  {
  }

  ghost predicate DeskOk(b: Buf, d: Desk, i: nat) {
    && Counted(b.refs, d.refs, i)
    && b.holder == if i in d.lock then Some(d.lock[i]) else None
  }

  ghost predicate DesksOk(s: State, d: Desk) {
    forall i {:trigger DeskOk(s.bufs[i], d, i)} :: 0 <= i < |s.bufs| ==> DeskOk(s.bufs[i], d, i)
  }

  lemma DeskStep(y: Layout, s: State, d: Desk, l: Label)
    requires Enabled(y, s, l) && DesksOk(s, d)
    ensures DesksOk(Apply(y, s, l), DeskNext(d, l))
  {
    var s', d' := Apply(y, s, l), DeskNext(d, l);
    forall i | 0 <= i < |s'.bufs| ensures DeskOk(s'.bufs[i], d', i) {
      if OfDesk(l) {
        DeskMove(y, s, d, l, i);
      } else if !l.Crash? {
        SameDesk(y, s, l, i);
        assert DeskOk(s.bufs[i], d, i);
      }
    }
  }

  predicate OfDesk(l: Label) {
    l.Hit? || l.Recycle? || l.Drop? || l.Lock? || l.Unlock?
  }

  lemma DeskMove(y: Layout, s: State, d: Desk, l: Label, i: nat)
    requires Enabled(y, s, l) && DesksOk(s, d) && OfDesk(l) && i < |s.bufs|
    ensures i < |Apply(y, s, l).bufs| && DeskOk(Apply(y, s, l).bufs[i], DeskNext(d, l), i)
  {
    assert DeskOk(s.bufs[i], d, i);
    CountedMove(s.bufs[i].refs, d.refs, i, l.p, l.i);
    if l.Recycle? && i == l.i {
      assert s.bufs[i].refs + multiset{l.p} == multiset{l.p};
    }
  }

  lemma SameDesk(y: Layout, s: State, l: Label, i: nat)
    requires Enabled(y, s, l) && !OfDesk(l) && !l.Crash? && i < |Apply(y, s, l).bufs|
    ensures i < |s.bufs| && Apply(y, s, l).bufs[i].refs == s.bufs[i].refs && Apply(y, s, l).bufs[i].holder == s.bufs[i].holder
  {
  }

  lemma {:induction false} DeskRun(y: Layout, s: State, d: Desk, ls: seq<Label>)
    requires CanRun(y, s, ls) && DesksOk(s, d)
    ensures DesksOk(After(y, s, ls), DeskBy(d, ls))
    decreases |ls|
  {
    if ls != [] {
      DeskStep(y, s, d, ls[0]);
      DeskRun(y, Apply(y, s, ls[0]), DeskNext(d, ls[0]), ls[1..]);
    }
  }

  /** A buffer has the references that were taken and not given back, and its sleep-lock is
      held by who locked it last and has not released it. */
  lemma BuffersHeld(y: Layout, disk: seq<Block>, worker: Pid, ls: seq<Label>, i: nat, p: Pid)
    requires CanRun(y, Boot(disk, worker), ls) && i < |After(y, Boot(disk, worker), ls).bufs|
    ensures
      var b, d := After(y, Boot(disk, worker), ls).bufs[i], DeskBy(Desk(multiset{}, map[]), ls);
      b.refs[p] == d.refs[(p, i)] && (b.holder == Some(p) <==> i in d.lock && d.lock[i] == p)
  {
    var d := Desk(multiset{}, map[]);
    assert DesksOk(Boot(disk, worker), d);
    DeskRun(y, Boot(disk, worker), d, ls);
    assert DeskOk(After(y, Boot(disk, worker), ls).bufs[i], DeskBy(d, ls), i);
  }

  // ----- who commits -------------------------------------------------------

  /** The last to call end_op. */
  function LastOut(p: Option<Pid>, ls: seq<Label>): Option<Pid>
    decreases |ls|
  {
    if ls == [] then p else LastOut(if ls[0].EndOp? then Some(ls[0].p) else p, ls[1..])
  }

  lemma {:induction false} LastCommits(y: Layout, s: State, p: Option<Pid>, ls: seq<Label>)
    requires CanRun(y, s, ls) && (s.log.committing ==> p == Some(s.worker))
    ensures After(y, s, ls).log.committing ==> LastOut(p, ls) == Some(After(y, s, ls).worker)
    decreases |ls|
  {
    if ls != [] {
      var q := if ls[0].EndOp? then Some(ls[0].p) else p;
      WorkerStep(y, s, p, ls[0]);
      LastCommits(y, Apply(y, s, ls[0]), q, ls[1..]);
    }
  }

  lemma WorkerStep(y: Layout, s: State, p: Option<Pid>, l: Label)
    requires Enabled(y, s, l) && (s.log.committing ==> p == Some(s.worker))
    ensures Apply(y, s, l).log.committing ==> (if l.EndOp? then Some(l.p) else p) == Some(Apply(y, s, l).worker)
  {
  }

  /** The commit is done by the process that called end_op last. */
  lemma CommittedByLast(y: Layout, disk: seq<Block>, worker: Pid, ls: seq<Label>)
    requires CanRun(y, Boot(disk, worker), ls) && After(y, Boot(disk, worker), ls).log.committing
    ensures LastOut(None, ls) == Some(After(y, Boot(disk, worker), ls).worker)
  {
    LastCommits(y, Boot(disk, worker), None, ls);
  }
}
