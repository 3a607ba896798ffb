/**
 The process table (proc.c): fork, exit, wait, sleep, wakeup and the scheduler, on any
 number of processors, one step at a time.

 What is done between acquire and release of ptable.lock in one go, with no loop over the
 table, is one step; exit and wait go through the table a slot at a time.  fork sets the
 parent of a new process, and gives up a slot, without the lock, as the code does.
 */
module Procs {
  import opened Common

  datatype ProcState = UNUSED | EMBRYO | SLEEPING | RUNNABLE | RUNNING | ZOMBIE

  datatype Chan = NoChan | OfProc(p: nat) | Other(n: nat)

  /** `serial` counts the processes made so far; p->pid is that number in 32 bits. */
  datatype Proc = Proc(state: ProcState, serial: nat, parent: Option<nat>, chan: Chan)

  /** A C int, after any number of increments. */
  function Pid(serial: nat): int {
    var n := serial % 0x1_0000_0000;
    if n < 0x8000_0000 then n else n - 0x1_0000_0000
  }

  /** What a process is in the middle of, on a processor or off it. */
  datatype Job =
    | User
    | Fork(np: nat, linked: bool)     // slot np is being made its child
    | Waiting                         // asleep in wait

  /** A process that runs, and where it is if it holds ptable.lock. */
  datatype At =
    | Free
    | Arrived                         // just back from sched()
    | ExitScan(k: nat)                // exit, having woken the parent, at slot k
    | WaitScan(k: nat, kids: bool)    // wait, at slot k
    | Leaving                         // its state is changed, sched() is next

  datatype Cpu =
    | Idle                            // scheduler, without the lock
    | Scan                            // scheduler, with the lock
    | Run(p: nat, at: At)
    | Back(p: nat)                    // off p's stack, p's page directory still loaded

  datatype State = State(
    procs: seq<Proc>, job: seq<Job>, cpu: seq<Cpu>, lock: Option<nat>, nextserial: nat, init: nat,
    exited: set<nat>,                 // history: the processes that exited
    reaped: seq<nat>)                 // and those that wait returned

  predicate HasLock(m: Cpu) {
    m.Scan? || m.Back? || (m.Run? && m.at != Free)
  }

  /** The kernel stack of p is in use. */
  predicate OnStack(m: Cpu, p: nat) {
    m.Run? && m.p == p
  }

  /** The page directory of p is in use. */
  predicate OnPgdir(m: Cpu, p: nat) {
    (m.Run? || m.Back?) && m.p == p
  }

  /** wakeup1 */
  function Woken(q: Proc, ch: Chan): Proc {
    if q.state == SLEEPING && q.chan == ch then q.(state := RUNNABLE) else q
  }

  function Wake(procs: seq<Proc>, ch: Chan): (r: seq<Proc>)
    ensures |r| == |procs| && forall i :: 0 <= i < |procs| ==> r[i] == Woken(procs[i], ch)
  {
    seq(|procs|, i requires 0 <= i < |procs| => Woken(procs[i], ch))
  }

  // ----- steps -------------------------------------------------------------

  predicate WellFormed(s: State) {
    |s.job| == |s.procs| && s.init < |s.procs|
  }

  /** Processor c runs process p outside ptable.lock, and the lock is free. */
  predicate AtFree(s: State, c: nat, p: nat) {
    WellFormed(s) && c < |s.cpu| && s.cpu[c] == Run(p, Free) && p < |s.procs|
  }

  predicate AtLock(s: State, c: nat, p: nat) {
    AtFree(s, c, p) && s.lock == None
  }

  predicate AtRun(s: State, c: nat) {
    WellFormed(s) && c < |s.cpu| && s.cpu[c].Run? && s.cpu[c].p < |s.procs|
  }

  function SetCpu(s: State, c: nat, m: Cpu): State
    requires c < |s.cpu|
  {
    s.(cpu := s.cpu[c := m])
  }

  function SetProc(s: State, p: nat, q: Proc): State
    requires p < |s.procs|
  {
    s.(procs := s.procs[p := q])
  }

  function SetJob(s: State, p: nat, j: Job): State
    requires p < |s.job|
  {
    s.(job := s.job[p := j])
  }

  datatype Label =
    | SchedLock(c: nat) | SchedRun(c: nat, p: nat) | SchedUnlock(c: nat)
    | Arrive(c: nat) | Leave(c: nat) | LeaveDone(c: nat)
    | Yield(c: nat) | Sleep(c: nat, n: nat) | Wakeup(n: nat) | Kill(q: nat)
    | ForkAlloc(c: nat, np: nat) | ForkFail(c: nat) | ForkLink(c: nat) | ForkDone(c: nat)
    | ExitStart(c: nat) | ExitStep(c: nat) | ExitEnd(c: nat)
    | WaitStart(c: nat) | WaitStep(c: nat) | WaitReap(c: nat) | WaitSleep(c: nat) | WaitQuit(c: nat)

  predicate CanSchedLock(s: State, c: nat) {
    c < |s.cpu| && s.cpu[c] == Idle && s.lock == None
  }

  function DoSchedLock(s: State, c: nat): State
    requires CanSchedLock(s, c)
  {
    SetCpu(s, c, Scan).(lock := Some(c))
  }

  predicate CanSchedRun(s: State, c: nat, p: nat) {
    c < |s.cpu| && s.cpu[c] == Scan && p < |s.procs| && s.procs[p].state == RUNNABLE
  }

  function DoSchedRun(s: State, c: nat, p: nat): State
    requires CanSchedRun(s, c, p)
  {
    SetProc(SetCpu(s, c, Run(p, Arrived)), p, s.procs[p].(state := RUNNING))
  }

  predicate CanSchedUnlock(s: State, c: nat) {
    c < |s.cpu| && s.cpu[c] == Scan
  }

  function DoSchedUnlock(s: State, c: nat): State
    requires CanSchedUnlock(s, c)
  {
    SetCpu(s, c, Idle).(lock := None)
  }

  /** Back from sched(): wait looks again, everything else releases the lock. */
  predicate CanArrive(s: State, c: nat) {
    AtRun(s, c) && s.cpu[c].at == Arrived
  }

  function DoArrive(s: State, c: nat): State
    requires CanArrive(s, c)
  {
    var p := s.cpu[c].p;
    var s1 := SetProc(s, p, s.procs[p].(chan := NoChan));
    if s.job[p] == Waiting then SetJob(SetCpu(s1, c, Run(p, WaitScan(0, false))), p, User)
    else SetCpu(s1, c, Run(p, Free)).(lock := None)
  }

  predicate CanLeave(s: State, c: nat) {
    AtRun(s, c) && s.cpu[c].at == Leaving
  }

  function DoLeave(s: State, c: nat): State
    requires CanLeave(s, c)
  {
    SetCpu(s, c, Back(s.cpu[c].p))
  }

  predicate CanLeaveDone(s: State, c: nat) {
    c < |s.cpu| && s.cpu[c].Back?
  }

  function DoLeaveDone(s: State, c: nat): State
    requires CanLeaveDone(s, c)
  {
    SetCpu(s, c, Scan)
  }

  predicate CanYield(s: State, c: nat) {
    AtRun(s, c) && AtLock(s, c, s.cpu[c].p)
  }

  function DoYield(s: State, c: nat): State
    requires CanYield(s, c)
  {
    var p := s.cpu[c].p;
    SetProc(SetCpu(s, c, Run(p, Leaving)), p, s.procs[p].(state := RUNNABLE)).(lock := Some(c))
  }

  function DoSleep(s: State, c: nat, n: nat): State
    requires CanYield(s, c)
  {
    var p := s.cpu[c].p;
    SetProc(SetCpu(s, c, Run(p, Leaving)), p, s.procs[p].(state := SLEEPING, chan := Other(n))).(lock := Some(c))
  }

  predicate CanWakeup(s: State) {
    s.lock == None
  }

  function DoWakeup(s: State, n: nat): State {
    s.(procs := Wake(s.procs, Other(n)))
  }

  predicate CanKill(s: State, q: nat) {
    s.lock == None && q < |s.procs| && s.procs[q].state == SLEEPING
  }

  function DoKill(s: State, q: nat): State
    requires CanKill(s, q)
  {
    SetProc(s, q, s.procs[q].(state := RUNNABLE))
  }

  predicate CanForkAlloc(s: State, c: nat, np: nat) {
    CanYield(s, c) && s.job[s.cpu[c].p] == User && np < |s.procs| && s.procs[np].state == UNUSED
  }

  function DoForkAlloc(s: State, c: nat, np: nat): State
    requires CanForkAlloc(s, c, np)
  {
    var s1 := SetProc(s, np, s.procs[np].(state := EMBRYO, serial := s.nextserial));
    SetJob(s1, s.cpu[c].p, Fork(np, false)).(nextserial := s.nextserial + 1)
  }

  predicate CanForkFail(s: State, c: nat) {
    && AtRun(s, c) && s.cpu[c].at == Free
    && var j := s.job[s.cpu[c].p]; j.Fork? && !j.linked && j.np < |s.procs|
  }

  function DoForkFail(s: State, c: nat): State
    requires CanForkFail(s, c)
  {
    var p, np := s.cpu[c].p, s.job[s.cpu[c].p].np;
    SetJob(SetProc(s, np, s.procs[np].(state := UNUSED)), p, User)
  }

  function DoForkLink(s: State, c: nat): State
    requires CanForkFail(s, c)
  {
    var p, np := s.cpu[c].p, s.job[s.cpu[c].p].np;
    SetJob(SetProc(s, np, s.procs[np].(parent := Some(p))), p, Fork(np, true))
  }

  predicate CanForkDone(s: State, c: nat) {
    CanYield(s, c) && var j := s.job[s.cpu[c].p]; j.Fork? && j.linked && j.np < |s.procs|
  }

  function DoForkDone(s: State, c: nat): State
    requires CanForkDone(s, c)
  {
    var p, np := s.cpu[c].p, s.job[s.cpu[c].p].np;
    SetJob(SetJob(SetProc(s, np, s.procs[np].(state := RUNNABLE)), p, User), np, User)
  }

  predicate CanExitStart(s: State, c: nat) {
    CanYield(s, c) && s.job[s.cpu[c].p] == User && s.cpu[c].p != s.init && s.procs[s.cpu[c].p].parent.Some?
  }

  function DoExitStart(s: State, c: nat): State
    requires CanExitStart(s, c)
  {
    var p := s.cpu[c].p;
    SetCpu(s, c, Run(p, ExitScan(0))).(lock := Some(c), procs := Wake(s.procs, OfProc(s.procs[p].parent.value)))
  }

  predicate CanExitStep(s: State, c: nat) {
    AtRun(s, c) && s.cpu[c].at.ExitScan? && s.cpu[c].at.k < |s.procs|
  }

  /** An abandoned child goes to init, which is woken if the child is a zombie. */
  function DoExitStep(s: State, c: nat): State
    requires CanExitStep(s, c)
  {
    var p, k := s.cpu[c].p, s.cpu[c].at.k;
    var s1 := SetCpu(s, c, Run(p, ExitScan(k + 1)));
    if s.procs[k].parent != Some(p) then s1
    else
      var s2 := SetProc(s1, k, s.procs[k].(parent := Some(s.init)));
      if s.procs[k].state == ZOMBIE then s2.(procs := Wake(s2.procs, OfProc(s.init))) else s2
  }

  predicate CanExitEnd(s: State, c: nat) {
    AtRun(s, c) && s.cpu[c].at.ExitScan? && s.cpu[c].at.k >= |s.procs|
  }

  function DoExitEnd(s: State, c: nat): State
    requires CanExitEnd(s, c)
  {
    var p := s.cpu[c].p;
    SetProc(SetCpu(s, c, Run(p, Leaving)), p, s.procs[p].(state := ZOMBIE)).(exited := s.exited + {s.procs[p].serial})
  }

  predicate CanWaitStart(s: State, c: nat) {
    CanYield(s, c) && s.job[s.cpu[c].p] == User
  }

  function DoWaitStart(s: State, c: nat): State
    requires CanWaitStart(s, c)
  {
    SetCpu(s, c, Run(s.cpu[c].p, WaitScan(0, false))).(lock := Some(c))
  }

  predicate AtWait(s: State, c: nat) {
    AtRun(s, c) && s.cpu[c].at.WaitScan?
  }

  predicate CanWaitStep(s: State, c: nat) {
    && AtWait(s, c) && s.cpu[c].at.k < |s.procs|
    && var q := s.procs[s.cpu[c].at.k]; q.parent != Some(s.cpu[c].p) || q.state != ZOMBIE
  }

  function DoWaitStep(s: State, c: nat): State
    requires CanWaitStep(s, c)
  {
    var p, k := s.cpu[c].p, s.cpu[c].at.k;
    SetCpu(s, c, Run(p, WaitScan(k + 1, s.cpu[c].at.kids || s.procs[k].parent == Some(p))))
  }

  predicate CanWaitReap(s: State, c: nat) {
    && AtWait(s, c) && s.cpu[c].at.k < |s.procs|
    && var q := s.procs[s.cpu[c].at.k]; q.parent == Some(s.cpu[c].p) && q.state == ZOMBIE
  }

  /** The child's stack and page directory are freed, its slot is cleared. */
  function DoWaitReap(s: State, c: nat): State
    requires CanWaitReap(s, c)
  {
    var p, k := s.cpu[c].p, s.cpu[c].at.k;
    var q := s.procs[k].(state := UNUSED, serial := 0, parent := None);
    SetProc(SetCpu(s, c, Run(p, Free)), k, q).(lock := None, reaped := s.reaped + [s.procs[k].serial])
  }

  predicate CanWaitSleep(s: State, c: nat) {
    AtWait(s, c) && s.cpu[c].at.k >= |s.procs| && s.cpu[c].at.kids
  }

  function DoWaitSleep(s: State, c: nat): State
    requires CanWaitSleep(s, c)
  {
    var p := s.cpu[c].p;
    SetJob(SetProc(SetCpu(s, c, Run(p, Leaving)), p, s.procs[p].(state := SLEEPING, chan := OfProc(p))), p, Waiting)
  }

  /** wait returns -1: no children, or the process was killed. */
  predicate CanWaitQuit(s: State, c: nat) {
    AtWait(s, c) && s.cpu[c].at.k >= |s.procs|
  }

  function DoWaitQuit(s: State, c: nat): State
    requires CanWaitQuit(s, c)
  {
    SetCpu(s, c, Run(s.cpu[c].p, Free)).(lock := None)
  }

  predicate Enabled(s: State, l: Label) {
    match l
    case SchedLock(c) => CanSchedLock(s, c)
    case SchedRun(c, p) => CanSchedRun(s, c, p)
    case SchedUnlock(c) => CanSchedUnlock(s, c)
    case Arrive(c) => CanArrive(s, c)
    case Leave(c) => CanLeave(s, c)
    case LeaveDone(c) => CanLeaveDone(s, c)
    case Yield(c) => CanYield(s, c)
    case Sleep(c, n) => CanYield(s, c)
    case Wakeup(n) => CanWakeup(s)
    case Kill(q) => CanKill(s, q)
    case ForkAlloc(c, np) => CanForkAlloc(s, c, np)
    case ForkFail(c) => CanForkFail(s, c)
    case ForkLink(c) => CanForkFail(s, c)
    case ForkDone(c) => CanForkDone(s, c)
    case ExitStart(c) => CanExitStart(s, c)
    case ExitStep(c) => CanExitStep(s, c)
    case ExitEnd(c) => CanExitEnd(s, c)
    case WaitStart(c) => CanWaitStart(s, c)
    case WaitStep(c) => CanWaitStep(s, c)
    case WaitReap(c) => CanWaitReap(s, c)
    case WaitSleep(c) => CanWaitSleep(s, c)
    case WaitQuit(c) => CanWaitQuit(s, c)
  }

  function Apply(s: State, l: Label): State
    requires Enabled(s, l)
  {
    match l
    case SchedLock(c) => DoSchedLock(s, c)
    case SchedRun(c, p) => DoSchedRun(s, c, p)
    case SchedUnlock(c) => DoSchedUnlock(s, c)
    case Arrive(c) => DoArrive(s, c)
    case Leave(c) => DoLeave(s, c)
    case LeaveDone(c) => DoLeaveDone(s, c)
    case Yield(c) => DoYield(s, c)
    case Sleep(c, n) => DoSleep(s, c, n)
    case Wakeup(n) => DoWakeup(s, n)
    case Kill(q) => DoKill(s, q)
    case ForkAlloc(c, np) => DoForkAlloc(s, c, np)
    case ForkFail(c) => DoForkFail(s, c)
    case ForkLink(c) => DoForkLink(s, c)
    case ForkDone(c) => DoForkDone(s, c)
    case ExitStart(c) => DoExitStart(s, c)
    case ExitStep(c) => DoExitStep(s, c)
    case ExitEnd(c) => DoExitEnd(s, c)
    case WaitStart(c) => DoWaitStart(s, c)
    case WaitStep(c) => DoWaitStep(s, c)
    case WaitReap(c) => DoWaitReap(s, c)
    case WaitSleep(c) => DoWaitSleep(s, c)
    case WaitQuit(c) => DoWaitQuit(s, c)
  }

  /** userinit has made process init runnable; the other slots are unused. */
  ghost predicate Init(s: State) {
    && WellFormed(s) && s.lock == None && s.exited == {} && s.reaped == [] && s.nextserial == 2
    && s.procs[s.init] == Proc(RUNNABLE, 1, None, NoChan)
    && (forall p :: 0 <= p < |s.procs| ==> s.job[p] == User)
    && (forall p :: 0 <= p < |s.procs| && p != s.init ==> s.procs[p] == Proc(UNUSED, 0, None, NoChan))
    && (forall c :: 0 <= c < |s.cpu| ==> s.cpu[c] == Idle)
  }

  ghost predicate IsRun(r: seq<State>, ls: seq<Label>) {
    && |r| == |ls| + 1 && Init(r[0])
    && (forall i :: 0 <= i < |ls| ==> Enabled(r[i], ls[i]) && r[i + 1] == Apply(r[i], ls[i]))
  }

  // ----- invariants --------------------------------------------------------

  predicate Alive(t: ProcState) {
    t == SLEEPING || t == RUNNABLE || t == RUNNING
  }

  /** Asleep in wait. */
  predicate InWait(procs: seq<Proc>, p: nat) {
    p < |procs| && procs[p].state == SLEEPING && procs[p].chan == OfProc(p)
  }

  predicate ZombieChild(procs: seq<Proc>, q: nat, p: nat) {
    q < |procs| && procs[q].parent == Some(p) && procs[q].state == ZOMBIE
  }

  ghost predicate LockOk(s: State) {
    && (forall c :: 0 <= c < |s.cpu| ==> (HasLock(s.cpu[c]) <==> s.lock == Some(c)))
    && (s.lock.Some? ==> s.lock.value < |s.cpu|)
  }

  /** A process on a processor is RUNNING unless that processor, with the lock, is just
      switching away from it. */
  ghost predicate CpuOk(s: State, c: nat)
    requires c < |s.cpu|
  {
    match s.cpu[c]
    case Run(p, at) => p < |s.procs| && if at == Leaving then s.procs[p].state != RUNNING else s.procs[p].state == RUNNING
    case Back(p) => p < |s.procs| && s.procs[p].state != RUNNING
    case _ => true
  }

  ghost predicate CpusOk(s: State) {
    && (forall c {:trigger CpuOk(s, c)} :: 0 <= c < |s.cpu| ==> CpuOk(s, c))
    && (forall c, d, p :: 0 <= c < |s.cpu| && 0 <= d < |s.cpu| && OnPgdir(s.cpu[c], p) && OnPgdir(s.cpu[d], p) ==> c == d)
  }

  /** Where exit and wait are in the table. */
  ghost predicate AtOk(s: State, p: nat, at: At)
    requires WellFormed(s) && p < |s.procs|
  {
    match at
    case ExitScan(k) =>
      && p != s.init && s.job[p] == User && s.procs[p].parent.Some? && !InWait(s.procs, s.procs[p].parent.value)
      && (forall q :: 0 <= q < k && q < |s.procs| ==> s.procs[q].parent != Some(p))
    case WaitScan(k, _) =>
      && s.job[p] == User && (forall q :: 0 <= q < k && q < |s.procs| ==> !ZombieChild(s.procs, q, p))
    case _ => true
  }

  ghost predicate ScansOk(s: State)
    requires WellFormed(s)
  {
    forall c :: 0 <= c < |s.cpu| && s.cpu[c].Run? && s.cpu[c].p < |s.procs| ==> AtOk(s, s.cpu[c].p, s.cpu[c].at)
  }

  /** The slots that fork is filling in. */
  ghost predicate ForkOk(s: State, p: nat)
    requires WellFormed(s) && p < |s.procs|
  {
    s.job[p].Fork? ==>
      var np := s.job[p].np;
      && np < |s.procs| && np != s.init && s.procs[np].state == EMBRYO && Alive(s.procs[p].state)
      && s.procs[np].parent == (if s.job[p].linked then Some(p) else None)
  }

  ghost predicate ForksOk(s: State)
    requires WellFormed(s)
  {
    && (forall p {:trigger ForkOk(s, p)} :: 0 <= p < |s.procs| ==> ForkOk(s, p))
    && (forall p, q :: 0 <= p < |s.procs| && 0 <= q < |s.procs| && p != q && s.job[p].Fork? && s.job[q].Fork? ==>
          s.job[p].np != s.job[q].np)
  }

  /** Parents are alive. */
  ghost predicate FamilyOk(s: State, q: nat)
    requires WellFormed(s) && q < |s.procs|
  {
    && (s.procs[q].parent.Some? ==> s.procs[q].parent.value < |s.procs| && Alive(s.procs[s.procs[q].parent.value].state))
    && s.procs[q].parent != Some(q)
    && (s.procs[q].state == UNUSED ==> s.procs[q].parent == None)
    && ((Alive(s.procs[q].state) || s.procs[q].state == ZOMBIE) && q != s.init ==> s.procs[q].parent.Some?)
  }

  ghost predicate FamiliesOk(s: State)
    requires WellFormed(s)
  {
    && Alive(s.procs[s.init].state) && s.procs[s.init].parent == None
    && (forall q {:trigger FamilyOk(s, q)} :: 0 <= q < |s.procs| ==> FamilyOk(s, q))
  }

  /** Who is asleep in wait has no zombie child. */
  ghost predicate WaitsOk(s: State) {
    && (forall p :: 0 <= p < |s.procs| && s.procs[p].state == SLEEPING && s.procs[p].chan.OfProc? ==> s.procs[p].chan.p == p)
    && (forall p, q :: InWait(s.procs, p) ==> !ZombieChild(s.procs, q, p))
  }

  /** Processes are told apart by number; one that has exited is a zombie or has been
      returned by wait once. */
  ghost predicate PidOk(s: State, p: nat)
    requires p < |s.procs|
  {
    s.procs[p].state != UNUSED ==>
      && s.procs[p].serial < s.nextserial
      && (s.procs[p].serial in s.exited <==> s.procs[p].state == ZOMBIE) && s.procs[p].serial !in s.reaped
  }

  ghost predicate PidsOk(s: State) {
    && (forall p {:trigger PidOk(s, p)} :: 0 <= p < |s.procs| ==> PidOk(s, p))
    && (forall p, q :: 0 <= p < q < |s.procs| && InUse(s.procs[p]) && InUse(s.procs[q]) ==> s.procs[p].serial != s.procs[q].serial)
    && (forall x :: x in s.exited ==> x < s.nextserial && (x in s.reaped || IsZombie(s.procs, x)))
    && (forall x :: x in s.reaped ==> x in s.exited)
    && (forall i, j :: 0 <= i < j < |s.reaped| ==> s.reaped[i] != s.reaped[j])
  }

  predicate InUse(q: Proc) {
    q.state != UNUSED
  }

  ghost predicate IsZombie(procs: seq<Proc>, x: nat) {
    exists p :: 0 <= p < |procs| && procs[p].state == ZOMBIE && procs[p].serial == x
  }

  ghost predicate TableOk(s: State)
    requires WellFormed(s)
  {
    ForksOk(s) && FamiliesOk(s) && PidsOk(s)
  }

  ghost predicate Inv(s: State) {
    WellFormed(s) && LockOk(s) && CpusOk(s) && ScansOk(s) && TableOk(s) && WaitsOk(s)
  }

  lemma InitInv(s: State)
    requires Init(s)
    ensures Inv(s)
  {
  }

  // ----- steps that leave the family alone ---------------------------------

  /** The same kind of state. */
  predicate SameKind(t: ProcState, t': ProcState) {
    t == t' || (Alive(t) && Alive(t'))
  }

  ghost predicate SameTable(s: State, s': State) {
    && WellFormed(s) && WellFormed(s') && |s'.procs| == |s.procs| && s'.init == s.init
    && s'.nextserial == s.nextserial && s'.exited == s.exited && s'.reaped == s.reaped
    && (forall p :: 0 <= p < |s.procs| ==> SameProc(s.procs[p], s'.procs[p]))
    && (forall p :: 0 <= p < |s.procs| ==> s'.job[p] == s.job[p] || (!s.job[p].Fork? && !s'.job[p].Fork?))
  }

  predicate SameProc(q: Proc, q': Proc) {
    SameKind(q.state, q'.state) && q'.serial == q.serial && q'.parent == q.parent
  }

  lemma TableKept(s: State, s': State)
    requires SameTable(s, s') && TableOk(s)
    ensures TableOk(s')
  {
    forall p | 0 <= p < |s.procs| ensures ForkOk(s', p) && FamilyOk(s', p) && PidOk(s', p) {
      assert ForkOk(s, p) && FamilyOk(s, p) && PidOk(s, p) && SameProc(s.procs[p], s'.procs[p]);
    }
    forall x | x in s.exited && x !in s.reaped ensures IsZombie(s'.procs, x) {
      var p :| 0 <= p < |s.procs| && s.procs[p].state == ZOMBIE && s.procs[p].serial == x;
      assert SameProc(s.procs[p], s'.procs[p]);
    }
    assert SameProc(s.procs[s.init], s'.procs[s.init]);
  }

  /** Fewer processes asleep in wait, no more zombies. */
  lemma WaitsKept(s: State, s': State)
    requires WaitsOk(s) && |s'.procs| == |s.procs|
    requires forall p :: 0 <= p < |s.procs| && s'.procs[p].state == SLEEPING && s'.procs[p].chan.OfProc? ==>
               s.procs[p].state == SLEEPING && s'.procs[p].chan == s.procs[p].chan
    requires forall p, q :: ZombieChild(s'.procs, q, p) ==> ZombieChild(s.procs, q, p)
    ensures WaitsOk(s')
  {
  }

  /** A step of processor c that takes, keeps or gives up the lock. */
  predicate Handed(l: Option<nat>, l': Option<nat>, c: nat, had: bool, has: bool) {
    if has then l' == Some(c) && (had || l == None) else l' == if had then None else l
  }

  lemma LockMove(s: State, s': State, c: nat, m: Cpu)
    requires LockOk(s) && c < |s.cpu| && s'.cpu == s.cpu[c := m] && Handed(s.lock, s'.lock, c, HasLock(s.cpu[c]), HasLock(m))
    ensures LockOk(s')
  {
  }

  /** Processor c goes to m, and process p, which is on no other processor, may start or
      stop running. */
  lemma CpuMove(s: State, s': State, c: nat, m: Cpu, p: nat)
    requires CpusOk(s) && c < |s.cpu| && s'.cpu == s.cpu[c := m] && |s'.procs| == |s.procs| && CpuOk(s', c)
    requires forall q :: 0 <= q < |s.procs| && q != p ==> (s'.procs[q].state == RUNNING <==> s.procs[q].state == RUNNING)
    requires forall d :: 0 <= d < |s.cpu| && d != c ==> !OnPgdir(s.cpu[d], p)
    requires forall q :: OnPgdir(m, q) ==> q == p
    ensures CpusOk(s')
  {
    forall d | 0 <= d < |s'.cpu| ensures CpuOk(s', d) {
      if d != c {
        assert CpuOk(s, d);
        assert s'.cpu[d] == s.cpu[d];
        assert s.cpu[d].Run? || s.cpu[d].Back? ==> OnPgdir(s.cpu[d], s.cpu[d].p);
      }
    }
  }

  lemma OnOnly(s: State, c: nat, p: nat)
    requires CpusOk(s) && c < |s.cpu| && OnPgdir(s.cpu[c], p)
    ensures forall d :: 0 <= d < |s.cpu| && d != c ==> !OnPgdir(s.cpu[d], p)
  {
  }

  /** Scans are only made with the lock. */
  lemma ScansMove(s: State, c: nat)
    requires WellFormed(s) && LockOk(s) && (s.lock == None || s.lock == Some(c))
    requires c < |s.cpu| && s.cpu[c].Run? && s.cpu[c].p < |s.procs| ==> AtOk(s, s.cpu[c].p, s.cpu[c].at)
    ensures ScansOk(s)
  {
    forall d | 0 <= d < |s.cpu| && s.cpu[d].Run? && s.cpu[d].p < |s.procs| ensures AtOk(s, s.cpu[d].p, s.cpu[d].at) {
      assert HasLock(s.cpu[d]) <==> s.lock == Some(d);
    }
  }

  /** A step of processor c that changes at most whether p runs, and who sleeps. */
  lemma QuietStep(s: State, s': State, c: nat, m: Cpu, p: nat)
    requires Inv(s) && SameTable(s, s') && c < |s.cpu| && s'.cpu == s.cpu[c := m]
    requires Handed(s.lock, s'.lock, c, HasLock(s.cpu[c]), HasLock(m)) && (HasLock(s.cpu[c]) || HasLock(m))
    requires CpuOk(s', c) && (forall q :: OnPgdir(m, q) ==> q == p)
    requires forall d :: 0 <= d < |s.cpu| && d != c ==> !OnPgdir(s.cpu[d], p)
    requires forall q :: 0 <= q < |s.procs| && q != p ==> (s'.procs[q].state == RUNNING <==> s.procs[q].state == RUNNING)
    requires forall q :: 0 <= q < |s.procs| && s'.procs[q].state == SLEEPING && s'.procs[q].chan.OfProc? ==>
               s.procs[q].state == SLEEPING && s'.procs[q].chan == s.procs[q].chan
    requires m.Run? && m.p < |s.procs| ==> AtOk(s', m.p, m.at)
    ensures Inv(s')
  {
    TableKept(s, s');
    LockMove(s, s', c, m);
    CpuMove(s, s', c, m, p);
    ScansMove(s', c);
    forall x: nat, q: nat | ZombieChild(s'.procs, q, x) ensures ZombieChild(s.procs, q, x) {
      assert SameProc(s.procs[q], s'.procs[q]);
    }
    WaitsKept(s, s');
  }

  /** No other processor is on a process that the scheduler may take. */
  lemma RunnableIdle(s: State, c: nat, p: nat)
    requires Inv(s) && CanSchedRun(s, c, p)
    ensures forall d :: 0 <= d < |s.cpu| ==> !OnPgdir(s.cpu[d], p)
  {
    assert HasLock(s.cpu[c]);
    forall d | 0 <= d < |s.cpu| ensures !OnPgdir(s.cpu[d], p) {
      assert CpuOk(s, d);
      assert HasLock(s.cpu[d]) <==> s.lock == Some(d);
    }
  }

  lemma SchedKeeps(s: State, l: Label)
    requires Inv(s) && Enabled(s, l) && (l.SchedLock? || l.SchedRun? || l.SchedUnlock?)
    ensures Inv(Apply(s, l))
  {
    match l
    case SchedLock(c) => QuietStep(s, DoSchedLock(s, c), c, Scan, |s.procs|) by { NobodyBeyond(s); }
    case SchedRun(c, p) =>
      RunnableIdle(s, c, p);
      QuietStep(s, DoSchedRun(s, c, p), c, Run(p, Arrived), p);
    case SchedUnlock(c) => QuietStep(s, DoSchedUnlock(s, c), c, Idle, |s.procs|) by { NobodyBeyond(s); }
  }

  lemma NobodyBeyond(s: State)
    requires CpusOk(s)
    ensures forall d :: 0 <= d < |s.cpu| ==> !OnPgdir(s.cpu[d], |s.procs|)
  {
    forall d | 0 <= d < |s.cpu| ensures !OnPgdir(s.cpu[d], |s.procs|) {
      assert CpuOk(s, d);
    }
  }

  lemma ArriveKeeps(s: State, c: nat)
    requires Inv(s) && CanArrive(s, c)
    ensures Inv(DoArrive(s, c))
  {
    var p := s.cpu[c].p;
    OnOnly(s, c, p);
    assert CpuOk(s, c);
    QuietStep(s, DoArrive(s, c), c, DoArrive(s, c).cpu[c], p);
  }

  lemma LeaveKeeps(s: State, l: Label)
    requires Inv(s) && Enabled(s, l) && (l.Leave? || l.LeaveDone?)
    ensures Inv(Apply(s, l))
  {
    assert CpuOk(s, l.c);
    OnOnly(s, l.c, s.cpu[l.c].p);
    QuietStep(s, Apply(s, l), l.c, if l.Leave? then Back(s.cpu[l.c].p) else Scan, s.cpu[l.c].p);
  }

  lemma YieldKeeps(s: State, l: Label)
    requires Inv(s) && Enabled(s, l) && (l.Yield? || l.Sleep?)
    ensures Inv(Apply(s, l))
  {
    var p := s.cpu[l.c].p;
    assert CpuOk(s, l.c);
    OnOnly(s, l.c, p);
    QuietStep(s, Apply(s, l), l.c, Run(p, Leaving), p);
  }

  /** Waking changes no table entry's kind, and nobody else's running. */
  lemma WokenSame(procs: seq<Proc>, ch: Chan)
    ensures forall q :: 0 <= q < |procs| ==> SameProc(procs[q], Wake(procs, ch)[q])
    ensures forall q :: 0 <= q < |procs| ==> (Wake(procs, ch)[q].state == RUNNING <==> procs[q].state == RUNNING)
    ensures forall q :: 0 <= q < |procs| && Wake(procs, ch)[q].state == SLEEPING ==> Wake(procs, ch)[q] == procs[q]
  {
  }

  /** A step that only wakes, with the lock free before and after. */
  lemma WakeStep(s: State, s': State)
    requires Inv(s) && SameTable(s, s') && s.lock == None && s'.lock == None && s'.cpu == s.cpu && s'.job == s.job
    requires forall q :: 0 <= q < |s.procs| ==> (s'.procs[q].state == RUNNING <==> s.procs[q].state == RUNNING)
    requires forall q :: 0 <= q < |s.procs| && s'.procs[q].state == SLEEPING ==> s'.procs[q] == s.procs[q]
    ensures Inv(s')
  {
    TableKept(s, s');
    forall d | 0 <= d < |s'.cpu| ensures CpuOk(s', d) {
      assert CpuOk(s, d);
    }
    ScansMove(s', |s.cpu|);
    forall x: nat, q: nat | ZombieChild(s'.procs, q, x) ensures ZombieChild(s.procs, q, x) {
      assert SameProc(s.procs[q], s'.procs[q]);
    }
    WaitsKept(s, s');
  }

  lemma WakeKeeps(s: State, l: Label)
    requires Inv(s) && Enabled(s, l) && (l.Wakeup? || l.Kill?)
    ensures Inv(Apply(s, l))
  {
    if l.Wakeup? {
      WokenSame(s.procs, Other(l.n));
    }
    WakeStep(s, Apply(s, l));
  }

  lemma ExitStartKeeps(s: State, c: nat)
    requires Inv(s) && CanExitStart(s, c)
    ensures Inv(DoExitStart(s, c))
  {
    var p := s.cpu[c].p;
    assert CpuOk(s, c);
    OnOnly(s, c, p);
    WokenSame(s.procs, OfProc(s.procs[p].parent.value));
    QuietStep(s, DoExitStart(s, c), c, Run(p, ExitScan(0)), p);
  }

  lemma WaitStartKeeps(s: State, c: nat)
    requires Inv(s) && CanWaitStart(s, c)
    ensures Inv(DoWaitStart(s, c))
  {
    assert CpuOk(s, c);
    OnOnly(s, c, s.cpu[c].p);
    QuietStep(s, DoWaitStart(s, c), c, Run(s.cpu[c].p, WaitScan(0, false)), s.cpu[c].p);
  }

  lemma WaitStepKeeps(s: State, c: nat)
    requires Inv(s) && CanWaitStep(s, c)
    ensures Inv(DoWaitStep(s, c))
  {
    assert CpuOk(s, c);
    OnOnly(s, c, s.cpu[c].p);
    assert AtOk(s, s.cpu[c].p, s.cpu[c].at);
    QuietStep(s, DoWaitStep(s, c), c, DoWaitStep(s, c).cpu[c], s.cpu[c].p);
  }

  lemma WaitQuitKeeps(s: State, c: nat)
    requires Inv(s) && CanWaitQuit(s, c)
    ensures Inv(DoWaitQuit(s, c))
  {
    assert CpuOk(s, c);
    OnOnly(s, c, s.cpu[c].p);
    QuietStep(s, DoWaitQuit(s, c), c, Run(s.cpu[c].p, Free), s.cpu[c].p);
  }

  /** Going to sleep in wait: the whole table has been seen, and there was no zombie. */
  lemma WaitSleepKeeps(s: State, c: nat)
    requires Inv(s) && CanWaitSleep(s, c)
    ensures Inv(DoWaitSleep(s, c))
  {
    var p, s' := s.cpu[c].p, DoWaitSleep(s, c);
    assert CpuOk(s, c);
    OnOnly(s, c, p);
    assert AtOk(s, p, s.cpu[c].at);
    TableKept(s, s');
    LockMove(s, s', c, Run(p, Leaving));
    CpuMove(s, s', c, Run(p, Leaving), p);
    ScansMove(s', c);
    forall x: nat, q: nat | ZombieChild(s'.procs, q, x) ensures ZombieChild(s.procs, q, x) {
      assert SameProc(s.procs[q], s'.procs[q]);
    }
  }

  // ----- steps that change the family --------------------------------------

  /** One table entry changes, to another kind of state or another parent, and neither
      starts nor stops running. */
  lemma CpusStay(s: State, s': State, c: nat, m: Cpu)
    requires CpusOk(s) && |s'.procs| == |s.procs| && c < |s.cpu| && s'.cpu == s.cpu[c := m]
    requires CpuOk(s', c) && forall q :: OnPgdir(m, q) ==> OnPgdir(s.cpu[c], q)
    requires forall q :: 0 <= q < |s.procs| ==> (s'.procs[q].state == RUNNING <==> s.procs[q].state == RUNNING)
    ensures CpusOk(s')
  {
    forall d | 0 <= d < |s'.cpu| ensures CpuOk(s', d) {
      if d != c { assert CpuOk(s, d); }
    }
  }

  /** No new process, no new zombie, and none gone. */
  lemma PidsKept(s: State, s': State)
    requires PidsOk(s) && |s'.procs| == |s.procs| && s'.nextserial == s.nextserial && s'.exited == s.exited && s'.reaped == s.reaped
    requires forall q :: 0 <= q < |s.procs| && InUse(s'.procs[q]) ==> InUse(s.procs[q]) && s'.procs[q].serial == s.procs[q].serial
    requires forall q :: 0 <= q < |s.procs| ==> (s'.procs[q].state == ZOMBIE <==> s.procs[q].state == ZOMBIE)
    ensures PidsOk(s')
  {
    forall q | 0 <= q < |s.procs| ensures PidOk(s', q) {
      assert PidOk(s, q);
    }
    forall x | x in s.exited && x !in s.reaped ensures IsZombie(s'.procs, x) {
      var q :| 0 <= q < |s.procs| && s.procs[q].state == ZOMBIE && s.procs[q].serial == x;
      assert InUse(s'.procs[q]) && s'.procs[q].state == ZOMBIE;
    }
  }

  /** A step by process p, in the middle of fork, on slot np. */
  ghost predicate ForkStep(s: State, s': State, p: nat, np: nat) {
    && WellFormed(s) && WellFormed(s') && |s'.procs| == |s.procs| && s'.init == s.init && p < |s.procs| && np < |s.procs|
    && s'.procs == s.procs[np := s'.procs[np]] && (forall q :: 0 <= q < |s.procs| && q != p && q != np ==>
          s'.job[q] == s.job[q])
  }

  lemma ForksKept(s: State, s': State, p: nat, np: nat)
    requires ForkStep(s, s', p, np) && ForksOk(s) && ForkOk(s', p) && p != np && !s'.job[np].Fork?
    requires s.procs[np].state == UNUSED || (s.job[p].Fork? && s.job[p].np == np)
    requires s'.job[p].Fork? ==> s'.job[p].np == np
    ensures ForksOk(s')
  {
    forall q | 0 <= q < |s.procs| ensures ForkOk(s', q) && (q != p && s'.job[q].Fork? ==> s'.job[q].np != np) {
      assert ForkOk(s, q);
    }
  }

  lemma FamiliesKept(s: State, s': State, p: nat, np: nat)
    requires ForkStep(s, s', p, np) && FamiliesOk(s) && np != s.init && FamilyOk(s', np)
    requires !Alive(s.procs[np].state)
    ensures FamiliesOk(s')
  {
    forall q | 0 <= q < |s.procs| ensures FamilyOk(s', q) {
      assert FamilyOk(s, q);
    }
  }

  lemma ForkAllocPids(s: State, c: nat, np: nat)
    requires Inv(s) && CanForkAlloc(s, c, np)
    ensures PidsOk(DoForkAlloc(s, c, np))
  {
    var s' := DoForkAlloc(s, c, np);
    forall q | 0 <= q < |s.procs| ensures PidOk(s', q) {
      assert PidOk(s, q);
    }
    forall x | x in s.exited && x !in s.reaped ensures IsZombie(s'.procs, x) {
      var q :| 0 <= q < |s.procs| && s.procs[q].state == ZOMBIE && s.procs[q].serial == x;
      assert s'.procs[q] == s.procs[q];
    }
    forall a, b | 0 <= a < b < |s.procs| && InUse(s'.procs[a]) && InUse(s'.procs[b])
      ensures s'.procs[a].serial != s'.procs[b].serial
    {
      assert PidOk(s, a) && PidOk(s, b);
    }
  }

  lemma ForkAllocKeeps(s: State, c: nat, np: nat)
    requires Inv(s) && CanForkAlloc(s, c, np)
    ensures Inv(DoForkAlloc(s, c, np))
  {
    var s', p := DoForkAlloc(s, c, np), s.cpu[c].p;
    assert CpuOk(s, c) && FamilyOk(s, np) && ForkOk(s, np);
    ForksKept(s, s', p, np);
    FamiliesKept(s, s', p, np);
    ForkAllocPids(s, c, np);
    CpusStay(s, s', c, s.cpu[c]);
    ScansMove(s', |s.cpu|);
    WaitsKept(s, s');
  }

  lemma ForkDoneKeeps(s: State, c: nat)
    requires Inv(s) && CanForkDone(s, c)
    ensures Inv(DoForkDone(s, c))
  {
    var s', p, np := DoForkDone(s, c), s.cpu[c].p, s.job[s.cpu[c].p].np;
    assert CpuOk(s, c) && ForkOk(s, p) && FamilyOk(s, np);
    ForksKept(s, s', p, np);
    FamiliesKept(s, s', p, np);
    PidsKept(s, s');
    CpusStay(s, s', c, s.cpu[c]);
    ScansMove(s', |s.cpu|);
    WaitsKept(s, s');
  }

  /** Without the lock: another processor may be in the middle of exit or wait. */
  lemma UnlockedAt(s: State, s': State, x: nat, at: At, p: nat, np: nat)
    requires ForkStep(s, s', p, np) && x < |s.procs| && AtOk(s, x, at) && x != p && x != np
    requires s'.procs[np].state != SLEEPING && s'.procs[np].state != ZOMBIE
    requires s'.procs[np].parent == None || s'.procs[np].parent == Some(p)
    ensures AtOk(s', x, at)
  {
    if at.WaitScan? {
      forall q | 0 <= q < at.k && q < |s.procs| ensures !ZombieChild(s'.procs, q, x) {
        assert !ZombieChild(s.procs, q, x);
      }
    }
  }

  lemma ForkUnlockedScans(s: State, s': State, c: nat, np: nat)
    requires Inv(s) && CanForkFail(s, c) && np == s.job[s.cpu[c].p].np && ForkStep(s, s', s.cpu[c].p, np) && s'.cpu == s.cpu
    requires s'.procs[np].state != SLEEPING && s'.procs[np].state != ZOMBIE
    requires s'.procs[np].parent == None || s'.procs[np].parent == Some(s.cpu[c].p)
    ensures ScansOk(s')
  {
    var p := s.cpu[c].p;
    assert CpuOk(s, c) && ForkOk(s, p);
    OnOnly(s, c, p);
    forall d | 0 <= d < |s.cpu| && s.cpu[d].Run? && s.cpu[d].p < |s.procs| ensures AtOk(s', s.cpu[d].p, s.cpu[d].at) {
      assert CpuOk(s, d);
      if d != c && (s.cpu[d].at.ExitScan? || s.cpu[d].at.WaitScan?) {
        assert OnPgdir(s.cpu[d], s.cpu[d].p);
        UnlockedAt(s, s', s.cpu[d].p, s.cpu[d].at, p, np);
      }
    }
  }

  lemma ForkFailKeeps(s: State, c: nat)
    requires Inv(s) && CanForkFail(s, c)
    ensures Inv(DoForkFail(s, c))
  {
    var s', p, np := DoForkFail(s, c), s.cpu[c].p, s.job[s.cpu[c].p].np;
    assert CpuOk(s, c) && ForkOk(s, p) && FamilyOk(s, np) && ForkOk(s, np);
    ForksKept(s, s', p, np);
    FamiliesKept(s, s', p, np);
    PidsKept(s, s');
    CpusStay(s, s', c, s.cpu[c]);
    ForkUnlockedScans(s, s', c, np);
    WaitsKept(s, s');
  }

  lemma ForkLinkKeeps(s: State, c: nat)
    requires Inv(s) && CanForkFail(s, c)
    ensures Inv(DoForkLink(s, c))
  {
    var s', p, np := DoForkLink(s, c), s.cpu[c].p, s.job[s.cpu[c].p].np;
    assert CpuOk(s, c) && ForkOk(s, p) && FamilyOk(s, np) && ForkOk(s, np);
    ForksKept(s, s', p, np);
    FamiliesKept(s, s', p, np);
    PidsKept(s, s');
    CpusStay(s, s', c, s.cpu[c]);
    ForkUnlockedScans(s, s', c, np);
    WaitsKept(s, s');
  }

  /** The table after a child has gone to init, and init may have been woken. */
  ghost predicate Reparented(s: State, s': State, p: nat, k: nat) {
    && WellFormed(s) && WellFormed(s') && |s'.procs| == |s.procs| && s'.init == s.init && k < |s.procs|
    && s'.job == s.job && s'.nextserial == s.nextserial && s'.exited == s.exited && s'.reaped == s.reaped
    && s.procs[k].parent == Some(p) && s'.procs[k].parent == Some(s.init)
    && (forall q :: 0 <= q < |s.procs| ==> SameKind(s.procs[q].state, s'.procs[q].state) && s'.procs[q].serial == s.procs[q].serial)
    && (forall q :: 0 <= q < |s.procs| && q != k ==> s'.procs[q].parent == s.procs[q].parent)
  }

  lemma ReparentedTable(s: State, s': State, p: nat, k: nat)
    requires Reparented(s, s', p, k) && TableOk(s) && p < |s.procs| && !s.job[p].Fork?
    ensures TableOk(s')
  {
    forall q | 0 <= q < |s.procs| ensures ForkOk(s', q) && FamilyOk(s', q) {
      assert ForkOk(s, q) && FamilyOk(s, q);
    }
    assert FamilyOk(s, s.init);
    PidsKept(s, s');
  }

  lemma ExitStepShape(s: State, c: nat)
    requires Inv(s) && CanExitStep(s, c) && s.procs[s.cpu[c].at.k].parent == Some(s.cpu[c].p)
    ensures
      var s', p, k := DoExitStep(s, c), s.cpu[c].p, s.cpu[c].at.k;
      && Reparented(s, s', p, k) && s'.cpu == s.cpu[c := Run(p, ExitScan(k + 1))] && s'.lock == s.lock
      && (forall q :: 0 <= q < |s.procs| ==> (s'.procs[q].state == RUNNING <==> s.procs[q].state == RUNNING))
      && (forall q :: 0 <= q < |s.procs| && s'.procs[q].state == SLEEPING ==>
            s.procs[q].state == SLEEPING && s'.procs[q].chan == s.procs[q].chan)
      && (s.procs[k].state == ZOMBIE ==> !InWait(s'.procs, s.init))
  {
  }

  lemma ExitStepKeeps(s: State, c: nat)
    requires Inv(s) && CanExitStep(s, c)
    ensures Inv(DoExitStep(s, c))
  {
    var s', p, k := DoExitStep(s, c), s.cpu[c].p, s.cpu[c].at.k;
    assert CpuOk(s, c);
    OnOnly(s, c, p);
    assert AtOk(s, p, s.cpu[c].at);
    if s.procs[k].parent != Some(p) {
      QuietStep(s, s', c, Run(p, ExitScan(k + 1)), p);
    } else {
      ExitStepShape(s, c);
      assert ForkOk(s, p) && FamilyOk(s, p) && FamilyOk(s, k);
      ReparentedTable(s, s', p, k);
      LockMove(s, s', c, Run(p, ExitScan(k + 1)));
      CpusStay(s, s', c, Run(p, ExitScan(k + 1)));
      assert AtOk(s', p, ExitScan(k + 1));
      ScansMove(s', c);
      ReparentedWaits(s, s', p, k);
    }
  }

  lemma ReparentedWaits(s: State, s': State, p: nat, k: nat)
    requires Reparented(s, s', p, k) && WaitsOk(s)
    requires forall q :: 0 <= q < |s.procs| && s'.procs[q].state == SLEEPING ==>
               s.procs[q].state == SLEEPING && s'.procs[q].chan == s.procs[q].chan
    requires s.procs[k].state == ZOMBIE ==> !InWait(s'.procs, s.init)
    ensures WaitsOk(s')
  {
    forall x: nat, q: nat | InWait(s'.procs, x) ensures !ZombieChild(s'.procs, q, x) {
      assert InWait(s.procs, x);
      assert !ZombieChild(s.procs, q, x);
    }
  }

  /** The last act of exit: no children are left, and the parent is awake. */
  lemma ExitEndKeeps(s: State, c: nat)
    requires Inv(s) && CanExitEnd(s, c)
    ensures Inv(DoExitEnd(s, c))
  {
    var s', p := DoExitEnd(s, c), s.cpu[c].p;
    assert CpuOk(s, c);
    OnOnly(s, c, p);
    assert AtOk(s, p, s.cpu[c].at);
    ExitEndTable(s, c);
    LockMove(s, s', c, Run(p, Leaving));
    CpuMove(s, s', c, Run(p, Leaving), p);
    ScansMove(s', c);
    forall x: nat, q: nat | InWait(s'.procs, x) ensures !ZombieChild(s'.procs, q, x) {
      assert InWait(s.procs, x) && !ZombieChild(s.procs, q, x);
    }
  }

  lemma ExitEndTable(s: State, c: nat)
    requires Inv(s) && CanExitEnd(s, c) && AtOk(s, s.cpu[c].p, s.cpu[c].at) && CpuOk(s, c)
    ensures TableOk(DoExitEnd(s, c))
  {
    var s', p := DoExitEnd(s, c), s.cpu[c].p;
    forall q | 0 <= q < |s.procs| ensures ForkOk(s', q) && FamilyOk(s', q) {
      assert ForkOk(s, q) && FamilyOk(s, q);
    }
    ExitEndPids(s, s', p);
  }

  lemma ExitEndPids(s: State, s': State, p: nat)
    requires PidsOk(s) && p < |s.procs| && s.procs[p].state == RUNNING && s'.procs == s.procs[p := s.procs[p].(state := ZOMBIE)]
    requires s'.exited == s.exited + {s.procs[p].serial} && s'.reaped == s.reaped && s'.nextserial == s.nextserial
    ensures PidsOk(s')
  {
    var x := s.procs[p].serial;
    assert PidOk(s, p);
    forall q | 0 <= q < |s.procs| ensures PidOk(s', q) {
      assert PidOk(s, q);
    }
    forall y | y in s'.exited && y !in s.reaped ensures IsZombie(s'.procs, y) {
      if y == x {
        assert s'.procs[p].state == ZOMBIE && s'.procs[p].serial == x;
      } else {
        var q :| 0 <= q < |s.procs| && s.procs[q].state == ZOMBIE && s.procs[q].serial == y;
        assert s'.procs[q] == s.procs[q];
      }
    }
  }

  /** wait takes a zombie child out of the table. */
  lemma WaitReapKeeps(s: State, c: nat)
    requires Inv(s) && CanWaitReap(s, c)
    ensures Inv(DoWaitReap(s, c))
  {
    var s', p, k := DoWaitReap(s, c), s.cpu[c].p, s.cpu[c].at.k;
    assert CpuOk(s, c) && AtOk(s, p, s.cpu[c].at);
    OnOnly(s, c, p);
    ReapFamilies(s, c);
    ReapPids(s, c);
    LockMove(s, s', c, Run(p, Free));
    CpusStay(s, s', c, Run(p, Free));
    ScansMove(s', c);
    forall x: nat, q: nat | ZombieChild(s'.procs, q, x) ensures ZombieChild(s.procs, q, x) {
    }
    WaitsKept(s, s');
  }

  lemma ReapFamilies(s: State, c: nat)
    requires Inv(s) && CanWaitReap(s, c) && CpuOk(s, c)
    ensures ForksOk(DoWaitReap(s, c)) && FamiliesOk(DoWaitReap(s, c))
  {
    var s', k := DoWaitReap(s, c), s.cpu[c].at.k;
    forall q | 0 <= q < |s.procs| ensures ForkOk(s', q) && FamilyOk(s', q) {
      assert ForkOk(s, q) && FamilyOk(s, q);
    }
  }

  lemma ReapPids(s: State, c: nat)
    requires Inv(s) && CanWaitReap(s, c) && CpuOk(s, c)
    ensures PidsOk(DoWaitReap(s, c))
  {
    var s', k := DoWaitReap(s, c), s.cpu[c].at.k;
    var x := s.procs[k].serial;
    assert PidOk(s, k);
    forall q | 0 <= q < |s.procs| ensures PidOk(s', q) {
      assert PidOk(s, q);
    }
    forall y | y in s.exited && y !in s'.reaped ensures IsZombie(s'.procs, y) {
      assert y !in s.reaped;
      var q :| 0 <= q < |s.procs| && s.procs[q].state == ZOMBIE && s.procs[q].serial == y;
      assert s'.procs[q] == s.procs[q];
    }
  }

  lemma StepKeeps(s: State, l: Label)
    requires Inv(s) && Enabled(s, l)
    ensures Inv(Apply(s, l))
  {
    match l
    case SchedLock(_) => SchedKeeps(s, l);
    case SchedRun(_, _) => SchedKeeps(s, l);
    case SchedUnlock(_) => SchedKeeps(s, l);
    case Arrive(c) => ArriveKeeps(s, c);
    case Leave(_) => LeaveKeeps(s, l);
    case LeaveDone(_) => LeaveKeeps(s, l);
    case Yield(_) => YieldKeeps(s, l);
    case Sleep(_, _) => YieldKeeps(s, l);
    case Wakeup(_) => WakeKeeps(s, l);
    case Kill(_) => WakeKeeps(s, l);
    case ForkAlloc(c, np) => ForkAllocKeeps(s, c, np);
    case ForkFail(c) => ForkFailKeeps(s, c);
    case ForkLink(c) => ForkLinkKeeps(s, c);
    case ForkDone(c) => ForkDoneKeeps(s, c);
    case ExitStart(c) => ExitStartKeeps(s, c);
    case ExitStep(c) => ExitStepKeeps(s, c);
    case ExitEnd(c) => ExitEndKeeps(s, c);
    case WaitStart(c) => WaitStartKeeps(s, c);
    case WaitStep(c) => WaitStepKeeps(s, c);
    case WaitReap(c) => WaitReapKeeps(s, c);
    case WaitSleep(c) => WaitSleepKeeps(s, c);
    case WaitQuit(c) => WaitQuitKeeps(s, c);
  }

  lemma {:induction false} RunKeeps(r: seq<State>, ls: seq<Label>, i: nat)
    requires IsRun(r, ls) && i < |r|
    ensures Inv(r[i])
  {
    if i == 0 {
      InitInv(r[0]);
    } else {
      RunKeeps(r, ls, i - 1);
      RunStep(r, ls, i - 1);
    }
  }

  lemma RunStep(r: seq<State>, ls: seq<Label>, i: nat)
    requires IsRun(r, ls) && i < |ls| && Inv(r[i])
    ensures Inv(r[i + 1])
  {
    StepKeeps(r[i], ls[i]);
  }

  // ----- what it means -----------------------------------------------------

  /** Nobody sleeps in wait with a zombie child.  It holds at every step, whoever has the
      lock. */
  lemma NoSleeperWithZombie(r: seq<State>, ls: seq<Label>, i: nat, p: nat, q: nat)
    requires IsRun(r, ls) && i < |r| && InWait(r[i].procs, p)
    ensures !ZombieChild(r[i].procs, q, p)
  {
    RunKeeps(r, ls, i);
  }

  /** A zombie has no children. */
  lemma ZombieChildless(r: seq<State>, ls: seq<Label>, i: nat, p: nat, q: nat)
    requires IsRun(r, ls) && i < |r| && p < |r[i].procs| && q < |r[i].procs| && r[i].procs[p].state == ZOMBIE
    ensures r[i].procs[q].parent != Some(p)
  {
    RunKeeps(r, ls, i);
    assert FamilyOk(r[i], q);
  }

  /** A zombie's kernel stack and page directory are in use by no processor but one that
      holds ptable.lock to leave it: with the lock free, or with any other, by none. */
  lemma ZombieOffCpu(r: seq<State>, ls: seq<Label>, i: nat, p: nat, c: nat)
    requires IsRun(r, ls) && i < |r| && p < |r[i].procs| && c < |r[i].cpu| && r[i].procs[p].state == ZOMBIE
    requires OnStack(r[i].cpu[c], p) || OnPgdir(r[i].cpu[c], p)
    ensures r[i].lock == Some(c)
  {
    RunKeeps(r, ls, i);
    assert CpuOk(r[i], c);
    assert HasLock(r[i].cpu[c]) <==> r[i].lock == Some(c);
  }

  /** A zombie goes out of the table only in its parent's wait, when nothing uses its stack
      and page directory, and wait returns its pid; until then it changes only its parent. */
  lemma ReapedByParent(r: seq<State>, ls: seq<Label>, i: nat, k: nat)
    requires IsRun(r, ls) && i < |ls| && k < |r[i].procs| && r[i].procs[k].state == ZOMBIE
    ensures |r[i + 1].procs| == |r[i].procs|
    ensures r[i + 1].procs[k].state == ZOMBIE || (
              && ls[i].WaitReap? && r[i].cpu[ls[i].c].p < |r[i].procs|
              && r[i].procs[k].parent == Some(r[i].cpu[ls[i].c].p)
              && r[i + 1].reaped == r[i].reaped + [r[i].procs[k].serial]
              && forall c :: 0 <= c < |r[i].cpu| ==> !OnPgdir(r[i].cpu[c], k))
  {
    RunKeeps(r, ls, i);
    ReapStep(r[i], ls[i], k);
  }

  lemma ReapStep(s: State, l: Label, k: nat)
    requires Inv(s) && Enabled(s, l) && k < |s.procs| && s.procs[k].state == ZOMBIE
    ensures |Apply(s, l).procs| == |s.procs|
    ensures Apply(s, l).procs[k].state == ZOMBIE || (
              && l.WaitReap? && s.cpu[l.c].p < |s.procs| && s.procs[k].parent == Some(s.cpu[l.c].p)
              && Apply(s, l).reaped == s.reaped + [s.procs[k].serial]
              && forall c :: 0 <= c < |s.cpu| ==> !OnPgdir(s.cpu[c], k))
  {
    if l.WaitReap? && k == s.cpu[l.c].at.k {
      forall c | 0 <= c < |s.cpu| ensures !OnPgdir(s.cpu[c], k) {
        assert CpuOk(s, c) && CpuOk(s, l.c);
        assert HasLock(s.cpu[c]) <==> s.lock == Some(c);
        assert HasLock(s.cpu[l.c]) <==> s.lock == Some(l.c);
      }
    } else {
      ZombieStays(s, l, k);
    }
  }

  lemma ZombieStays(s: State, l: Label, k: nat)
    requires Inv(s) && Enabled(s, l) && k < |s.procs| && s.procs[k].state == ZOMBIE
    requires !(l.WaitReap? && k == s.cpu[l.c].at.k)
    ensures |Apply(s, l).procs| == |s.procs| && Apply(s, l).procs[k].state == ZOMBIE
  {
    if l.ForkFail? || l.ForkLink? || l.ForkDone? {
      assert ForkOk(s, s.cpu[l.c].p);
    }
    if l.Yield? || l.Sleep? || l.Arrive? || l.WaitSleep? || l.ExitEnd? {
      assert CpuOk(s, l.c);
    }
  }

  /** Every process that has exited is in the table as a zombie or has been returned by wait,
      never both and never twice.  Two with the same pid are 2^32 apart. */
  lemma ReapedOnce(r: seq<State>, ls: seq<Label>, i: nat, x: nat)
    requires IsRun(r, ls) && i < |r| && x in r[i].exited
    ensures x in r[i].reaped <==> !IsZombie(r[i].procs, x)
    ensures forall a, b :: 0 <= a < b < |r[i].reaped| ==> r[i].reaped[a] != r[i].reaped[b]
    ensures forall p, q :: 0 <= p < q < |r[i].procs| && r[i].procs[p].state == r[i].procs[q].state == ZOMBIE ==>
              r[i].procs[p].serial != r[i].procs[q].serial
    ensures forall y :: y in r[i].exited && y != x && Pid(y) == Pid(x) ==> (y - x) % 0x1_0000_0000 == 0
  {
    RunKeeps(r, ls, i);
    if IsZombie(r[i].procs, x) {
      var p :| 0 <= p < |r[i].procs| && r[i].procs[p].state == ZOMBIE && r[i].procs[p].serial == x;
      assert PidOk(r[i], p);
    }
  }

  /** exit finds a parent to wake: every process but init has one. */
  lemma ExitHasParent(r: seq<State>, ls: seq<Label>, i: nat, c: nat)
    requires IsRun(r, ls) && i < |r| && CanYield(r[i], c) && r[i].job[r[i].cpu[c].p] == User && r[i].cpu[c].p != r[i].init
    ensures CanExitStart(r[i], c)
  {
    RunKeeps(r, ls, i);
    assert CpuOk(r[i], c) && FamilyOk(r[i], r[i].cpu[c].p);
  }
}
