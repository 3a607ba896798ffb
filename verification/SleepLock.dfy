/**
 Sleep-locks (sleeplock.c) on top of sleep and wakeup (proc.c): one lock, and any number of
 processes in the slots 0 to n-1 of the process table, one step at a time.

 A process is asleep when its state is SLEEPING with the lock as its channel.  `lk` is the
 holder of the lock's inner spinlock, `pt` that of the process table's.
 */
module SleepLock {
  import opened Common

  /** Where a process is.  The names say what it does next. */
  datatype Pc =
    | Outside                  // neither holds the sleep-lock nor wants it
    | Elsewhere(holds: bool)   // holds ptable.lock on other business, with the sleep-lock or without
    | Enter                    // acquiresleep: acquire(&lk->lk)
    | Test                     // while(lk->locked)
    | SleepLockTable           // sleep: acquire(&ptable.lock)
    | SleepUnlock              // release(lk)
    | SleepGo                  // state = SLEEPING; sched()
    | Asleep                   // in the scheduler's hands
    | SleepDone                // back from sched(); release(&ptable.lock)
    | SleepRelock              // acquire(lk)
    | Take                     // lk->locked = 1; lk->pid = pid
    | EnterDone                // release(&lk->lk)
    | Holding                  // the critical section
    | Leave                    // releasesleep: acquire(&lk->lk)
    | Clear                    // lk->locked = 0; lk->pid = 0
    | WakeLockTable            // wakeup: acquire(&ptable.lock)
    | WakeScan(k: nat)         // wakeup1 at slot k
    | WakeDone                 // release(&ptable.lock)
    | LeaveDone                // release(&lk->lk)

  datatype State = State(pc: seq<Pc>, asleep: set<nat>, lk: Option<nat>, pt: Option<nat>, locked: bool, pid: nat)

  /** Inside the sections between acquire and release of the two spinlocks. */
  predicate HasLk(c: Pc) {
    || c == Test || c == SleepLockTable || c == SleepUnlock || c == Take || c == EnterDone || c == Clear
    || c == WakeLockTable || c.WakeScan? || c == WakeDone || c == LeaveDone
  }

  predicate HasPt(c: Pc) {
    c.Elsewhere? || c == SleepUnlock || c == SleepGo || c == SleepDone || c.WakeScan? || c == WakeDone
  }

  /** Between taking the sleep-lock and giving it back. */
  predicate HasSleepLock(c: Pc) {
    c == EnterDone || c == Holding || c == Elsewhere(true) || c == Leave || c == Clear
  }

  predicate Init(s: State) {
    && (forall p :: 0 <= p < |s.pc| ==> s.pc[p] == Outside)
    && s.asleep == {} && s.lk == None && s.pt == None && !s.locked
  }

  function Go(s: State, p: nat, c: Pc): State
    requires p < |s.pc|
  {
    s.(pc := s.pc[p := c])
  }

  predicate Free(l: Option<nat>) {
    l == None
  }

  /** Process p can take a step: it is not waiting for a spinlock, nor asleep. */
  predicate CanStep(s: State, p: nat) {
    && p < |s.pc|
    && match s.pc[p]
       case Enter => Free(s.lk)
       case SleepRelock => Free(s.lk)
       case Leave => Free(s.lk)
       case SleepLockTable => Free(s.pt)
       case WakeLockTable => Free(s.pt)
       case Asleep => p !in s.asleep && Free(s.pt)
       case _ => true
  }

  function Step(s: State, p: nat): State
    requires CanStep(s, p)
  {
    match s.pc[p]
    case Outside => Go(s, p, Enter)
    case Elsewhere(holds) => Go(s, p, if holds then Holding else Outside).(pt := None)
    case Enter => Go(s, p, Test).(lk := Some(p))
    case Test => Go(s, p, if s.locked then SleepLockTable else Take)
    case SleepLockTable => Go(s, p, SleepUnlock).(pt := Some(p))
    case SleepUnlock => Go(s, p, SleepGo).(lk := None)
    case SleepGo => Go(s, p, Asleep).(asleep := s.asleep + {p}, pt := None)
    case Asleep => Go(s, p, SleepDone).(pt := Some(p))
    case SleepDone => Go(s, p, SleepRelock).(pt := None)
    case SleepRelock => Go(s, p, Test).(lk := Some(p))
    case Take => Go(s, p, EnterDone).(locked := true, pid := p)
    case EnterDone => Go(s, p, Holding).(lk := None)
    case Holding => Go(s, p, Leave)
    case Leave => Go(s, p, Clear).(lk := Some(p))
    case Clear => Go(s, p, WakeLockTable).(locked := false, pid := 0)
    case WakeLockTable => Go(s, p, WakeScan(0)).(pt := Some(p))
    case WakeScan(k) =>
      if k < |s.pc| then Go(s, p, WakeScan(k + 1)).(asleep := s.asleep - {k}) else Go(s, p, WakeDone)
    case WakeDone => Go(s, p, LeaveDone).(pt := None)
    case LeaveDone => Go(s, p, Outside).(lk := None)
  }

  /** Besides: a process goes about other business under ptable.lock, or kill makes a
      sleeping process runnable. */
  predicate CanBusy(s: State, p: nat) {
    p < |s.pc| && (s.pc[p] == Outside || s.pc[p] == Holding) && Free(s.pt)
  }

  function DoBusy(s: State, p: nat): State
    requires CanBusy(s, p)
  {
    Go(s, p, Elsewhere(s.pc[p] == Holding)).(pt := Some(p))
  }

  predicate CanKill(s: State, q: nat) {
    Free(s.pt) && q in s.asleep
  }

  ghost predicate Next(s: State, s': State) {
    || (exists p :: CanStep(s, p) && s' == Step(s, p))
    || (exists p :: CanBusy(s, p) && s' == DoBusy(s, p))
    || (exists q :: CanKill(s, q) && s' == s.(asleep := s.asleep - {q}))
  }

  ghost predicate IsRun(r: seq<State>) {
    && |r| > 0 && Init(r[0])
    && (forall i :: 0 <= i < |r| - 1 ==> Next(r[i], r[i + 1]))
  }

  // ----- invariant ---------------------------------------------------------

  /** The spinlocks are held by just the process that is between acquire and release. */
  ghost predicate SpinOk(s: State) {
    && (forall p :: 0 <= p < |s.pc| ==> (HasLk(s.pc[p]) <==> s.lk == Some(p)))
    && (forall p :: 0 <= p < |s.pc| ==> (HasPt(s.pc[p]) <==> s.pt == Some(p)))
    && (s.lk.Some? ==> s.lk.value < |s.pc|)
    && (s.pt.Some? ==> s.pt.value < |s.pc|)
  }

  /** The sleep-lock is held by just the process that lk->pid names. */
  ghost predicate HolderOk(s: State) {
    && (forall p :: 0 <= p < |s.pc| && HasSleepLock(s.pc[p]) ==> s.locked && s.pid == p)
    && (s.locked ==> s.pid < |s.pc| && HasSleepLock(s.pc[s.pid]))
    && (forall p :: 0 <= p < |s.pc| && s.pc[p] == Take ==> !s.locked)
    && (forall p :: 0 <= p < |s.pc| && (s.pc[p] == SleepLockTable || s.pc[p] == SleepUnlock) ==> s.locked)
  }

  /** Someone has cleared the lock and is on the way to wake slot p: before the scan, or
      with the scan not yet past p. */
  ghost predicate WakeComing(s: State, p: nat) {
    && s.lk.Some? && s.lk.value < |s.pc|
    && var c := s.pc[s.lk.value]; c == WakeLockTable || (c.WakeScan? && c.k <= p)
  }

  ghost predicate SleepersOk(s: State) {
    && (forall p :: p in s.asleep ==> p < |s.pc| && s.pc[p] == Asleep && (s.locked || WakeComing(s, p)))
    && (forall p :: 0 <= p < |s.pc| && s.pc[p] == SleepGo ==> s.locked || WakeComing(s, p))
    && (forall p :: 0 <= p < |s.pc| && (s.pc[p].WakeScan? || s.pc[p] == WakeDone || s.pc[p] == WakeLockTable) ==> !s.locked)
    && (forall p, q :: 0 <= p < |s.pc| && q in s.asleep && s.pc[p].WakeScan? ==> s.pc[p].k <= q)
    && (forall p :: 0 <= p < |s.pc| && s.pc[p] == WakeDone ==> s.asleep == {})
  }

  ghost predicate Inv(s: State) {
    SpinOk(s) && HolderOk(s) && SleepersOk(s)
  }

  lemma InitInv(s: State)
    requires Init(s)
    ensures Inv(s)
  {
  }

  /** What a move of process p to c does to a spinlock l that c and its last place hold
      or not. */
  predicate Handed(l: Option<nat>, l': Option<nat>, p: nat, had: bool, has: bool) {
    if has then l' == Some(p) && (had || l == None) else l' == if had then None else l
  }

  lemma SpinMove(s: State, s': State, p: nat, c: Pc)
    requires SpinOk(s) && p < |s.pc| && s'.pc == s.pc[p := c]
    requires Handed(s.lk, s'.lk, p, HasLk(s.pc[p]), HasLk(c)) && Handed(s.pt, s'.pt, p, HasPt(s.pc[p]), HasPt(c))
    ensures SpinOk(s')
  {
  }

  lemma StepPc(s: State, p: nat)
    requires CanStep(s, p)
    ensures |Step(s, p).pc| == |s.pc| && Step(s, p).pc == s.pc[p := Step(s, p).pc[p]]
  {
  }

  lemma StepHandsLk(s: State, p: nat)
    requires CanStep(s, p) && (HasLk(s.pc[p]) <==> s.lk == Some(p))
    ensures |Step(s, p).pc| == |s.pc| && Handed(s.lk, Step(s, p).lk, p, HasLk(s.pc[p]), HasLk(Step(s, p).pc[p]))
  {
  }

  lemma StepHandsPt(s: State, p: nat)
    requires CanStep(s, p) && (HasPt(s.pc[p]) <==> s.pt == Some(p))
    ensures |Step(s, p).pc| == |s.pc| && Handed(s.pt, Step(s, p).pt, p, HasPt(s.pc[p]), HasPt(Step(s, p).pc[p]))
  {
  }

  lemma StepSpin(s: State, p: nat)
    requires SpinOk(s) && CanStep(s, p)
    ensures SpinOk(Step(s, p))
  {
    StepPc(s, p);
    StepHandsLk(s, p);
    StepHandsPt(s, p);
    SpinMove(s, Step(s, p), p, Step(s, p).pc[p]);
  }

  /** The holder's part, for a move that does not enter or leave the sleep-lock ... */
  lemma HolderMove(s: State, s': State, p: nat, c: Pc)
    requires HolderOk(s) && p < |s.pc| && s'.pc == s.pc[p := c] && s'.locked == s.locked && s'.pid == s.pid
    requires HasSleepLock(c) <==> HasSleepLock(s.pc[p])
    requires c == Take ==> !s.locked
    requires c == SleepLockTable || c == SleepUnlock ==> s.locked
    ensures HolderOk(s')
  {
  }

  /** ... for taking it and for clearing it. */
  lemma HolderTake(s: State, p: nat)
    requires SpinOk(s) && HolderOk(s) && p < |s.pc| && s.pc[p] == Take
    ensures HolderOk(Go(s, p, EnterDone).(locked := true, pid := p))
  {
  }

  lemma HolderClear(s: State, p: nat)
    requires SpinOk(s) && HolderOk(s) && p < |s.pc| && s.pc[p] == Clear
    ensures HolderOk(Go(s, p, WakeLockTable).(locked := false, pid := 0))
  {
  }

  lemma StepQuiet(s: State, p: nat)
    requires CanStep(s, p) && s.pc[p] != Take && s.pc[p] != Clear
    requires s.pc[p] == SleepLockTable || s.pc[p] == SleepUnlock ==> s.locked
    ensures
      var s', c := Step(s, p), Step(s, p).pc[p];
      && s'.locked == s.locked && s'.pid == s.pid && (HasSleepLock(c) <==> HasSleepLock(s.pc[p]))
      && (c == Take ==> !s.locked) && (c == SleepLockTable || c == SleepUnlock ==> s.locked)
  {
  }

  lemma StepHolder(s: State, p: nat)
    requires SpinOk(s) && HolderOk(s) && CanStep(s, p)
    ensures HolderOk(Step(s, p))
  {
    if s.pc[p] == Take {
      HolderTake(s, p);
    } else if s.pc[p] == Clear {
      HolderClear(s, p);
    } else {
      StepQuiet(s, p);
      StepPc(s, p);
      HolderMove(s, Step(s, p), p, Step(s, p).pc[p]);
    }
  }

  /** Places that matter to sleepers. */
  predicate Special(c: Pc) {
    c == SleepGo || c == WakeLockTable || c.WakeScan? || c == WakeDone
  }

  lemma SleepersMove(s: State, s': State, p: nat, c: Pc)
    requires Inv(s) && SpinOk(s') && p < |s.pc| && s'.pc == s.pc[p := c] && s'.asleep == s.asleep && s'.locked == s.locked
    requires !Special(s.pc[p]) && !Special(c) && p !in s.asleep
    requires s.lk.Some? && s.lk.value != p ==> s'.lk == s.lk
    ensures SleepersOk(s')
  {
    forall q | WakeComing(s, q) ensures WakeComing(s', q) {
    }
  }

  lemma SleepGoKeeps(s: State, p: nat)
    requires Inv(s) && p < |s.pc| && s.pc[p] == SleepUnlock
    ensures SleepersOk(Go(s, p, SleepGo).(lk := None))
  {
  }

  lemma FallAsleepKeeps(s: State, p: nat)
    requires Inv(s) && p < |s.pc| && s.pc[p] == SleepGo
    ensures SleepersOk(Go(s, p, Asleep).(asleep := s.asleep + {p}, pt := None))
  {
    var s' := Go(s, p, Asleep).(asleep := s.asleep + {p}, pt := None);
    forall q | WakeComing(s, q) ensures WakeComing(s', q) {
    }
  }

  lemma TakeKeeps(s: State, p: nat)
    requires Inv(s) && p < |s.pc| && s.pc[p] == Take
    ensures SleepersOk(Go(s, p, EnterDone).(locked := true, pid := p))
  {
  }

  lemma ClearKeeps(s: State, p: nat)
    requires Inv(s) && p < |s.pc| && s.pc[p] == Clear
    ensures SleepersOk(Go(s, p, WakeLockTable).(locked := false, pid := 0))
  {
  }

  lemma ScanStartKeeps(s: State, p: nat)
    requires SpinOk(s) && SleepersOk(s) && p < |s.pc| && s.pc[p] == WakeLockTable && Free(s.pt)
    ensures SleepersOk(Go(s, p, WakeScan(0)).(pt := Some(p)))
  {
  }

  lemma ScanNextKeeps(s: State, p: nat, k: nat)
    requires SpinOk(s) && SleepersOk(s) && p < |s.pc| && s.pc[p] == WakeScan(k) && k < |s.pc|
    ensures SleepersOk(Go(s, p, WakeScan(k + 1)).(asleep := s.asleep - {k}))
  {
    var s' := Go(s, p, WakeScan(k + 1)).(asleep := s.asleep - {k});
    OnlyScanner(s, p, k);
    forall q | q in s'.asleep ensures q < |s'.pc| && s'.pc[q] == Asleep && k + 1 <= q && WakeComing(s', q) {
      assert q in s.asleep;
    }
  }

  lemma OnlyScanner(s: State, p: nat, k: nat)
    requires SpinOk(s) && p < |s.pc| && s.pc[p] == WakeScan(k)
    ensures s.lk == Some(p) && s.pt == Some(p) && forall q :: 0 <= q < |s.pc| && q != p ==> !Special(s.pc[q])
  {
    assert HasLk(s.pc[p]) && HasPt(s.pc[p]);
    forall q | 0 <= q < |s.pc| && q != p ensures !Special(s.pc[q]) {
      assert !HasPt(s.pc[q]) && !HasLk(s.pc[q]);
    }
  }

  lemma ScanEndKeeps(s: State, p: nat, k: nat)
    requires SpinOk(s) && SleepersOk(s) && p < |s.pc| && s.pc[p] == WakeScan(k) && k >= |s.pc|
    ensures SleepersOk(Go(s, p, WakeDone))
  {
  }

  lemma WakeDoneKeeps(s: State, p: nat)
    requires SpinOk(s) && SleepersOk(s) && p < |s.pc| && s.pc[p] == WakeDone
    ensures SleepersOk(Go(s, p, LeaveDone).(pt := None))
  {
  }

  lemma ScanKeeps(s: State, p: nat)
    requires Inv(s) && p < |s.pc| && (s.pc[p] == WakeLockTable || s.pc[p].WakeScan? || s.pc[p] == WakeDone) && CanStep(s, p)
    ensures SleepersOk(Step(s, p))
  {
    if s.pc[p] == WakeLockTable {
      ScanStartKeeps(s, p);
    } else if s.pc[p] == WakeDone {
      WakeDoneKeeps(s, p);
    } else if s.pc[p].k < |s.pc| {
      ScanNextKeeps(s, p, s.pc[p].k);
    } else {
      ScanEndKeeps(s, p, s.pc[p].k);
    }
  }

  lemma StepPlain(s: State, p: nat)
    requires CanStep(s, p) && !Special(s.pc[p]) && s.pc[p] != SleepUnlock && s.pc[p] != Take && s.pc[p] != Clear
    requires s.lk.Some? && s.lk.value != p ==> !HasLk(s.pc[p])
    ensures
      var s' := Step(s, p);
      && s'.asleep == s.asleep && s'.locked == s.locked && |s'.pc| == |s.pc| && !Special(s'.pc[p])
      && (s.lk.Some? && s.lk.value != p ==> s'.lk == s.lk)
  {
  }

  lemma StepSleepers(s: State, p: nat)
    requires Inv(s) && CanStep(s, p)
    ensures SleepersOk(Step(s, p))
  {
    if s.pc[p] == SleepUnlock {
      SleepGoKeeps(s, p);
    } else if s.pc[p] == SleepGo {
      FallAsleepKeeps(s, p);
    } else if s.pc[p] == Take {
      TakeKeeps(s, p);
    } else if s.pc[p] == Clear {
      ClearKeeps(s, p);
    } else if Special(s.pc[p]) {
      ScanKeeps(s, p);
    } else {
      StepPlain(s, p);
      StepPc(s, p);
      StepSpin(s, p);
      SleepersMove(s, Step(s, p), p, Step(s, p).pc[p]);
    }
  }

  lemma BusyKeeps(s: State, p: nat)
    requires Inv(s) && CanBusy(s, p)
    ensures Inv(DoBusy(s, p))
  {
    var s' := DoBusy(s, p);
    SpinMove(s, s', p, s'.pc[p]);
    HolderMove(s, s', p, s'.pc[p]);
    SleepersMove(s, s', p, s'.pc[p]);
  }

  lemma KillKeeps(s: State, q: nat)
    requires Inv(s) && CanKill(s, q)
    ensures Inv(s.(asleep := s.asleep - {q}))
  {
    var s' := s.(asleep := s.asleep - {q});
    forall p | WakeComing(s, p) ensures WakeComing(s', p) {
    }
  }

  lemma NextKeeps(s: State, s': State)
    requires Inv(s) && Next(s, s')
    ensures Inv(s') && |s'.pc| == |s.pc|
  {
    if p :| CanStep(s, p) && s' == Step(s, p) {
      StepPc(s, p);
      StepSpin(s, p);
      StepHolder(s, p);
      StepSleepers(s, p);
    } else if p :| CanBusy(s, p) && s' == DoBusy(s, p) {
      BusyKeeps(s, p);
    } else {
      var q :| CanKill(s, q) && s' == s.(asleep := s.asleep - {q});
      KillKeeps(s, q);
    }
  }

  lemma {:induction false} RunKeeps(r: seq<State>, i: nat)
    requires IsRun(r) && i < |r|
    ensures Inv(r[i])
  {
    if i == 0 {
      InitInv(r[0]);
    } else {
      RunKeeps(r, i - 1);
      RunStep(r, i - 1);
    }
  }

  lemma RunStep(r: seq<State>, i: nat)
    requires IsRun(r) && i + 1 < |r| && Inv(r[i])
    ensures Inv(r[i + 1])
  {
    NextKeeps(r[i], r[i + 1]);
  }

  // ----- what it means -----------------------------------------------------

  /** At most one process is between acquiresleep and releasesleep, and lk->pid names it. */
  lemma MutualExclusion(r: seq<State>, i: nat, p: nat, q: nat)
    requires IsRun(r) && i < |r| && p < |r[i].pc| && q < |r[i].pc|
    requires HasSleepLock(r[i].pc[p]) && HasSleepLock(r[i].pc[q])
    ensures p == q == r[i].pid && r[i].locked
  {
    RunKeeps(r, i);
  }

  /** In acquiresleep, and in releasesleep after the lock is cleared. */
  predicate Acquiring(c: Pc) {
    || c == Enter || c == Test || c == SleepLockTable || c == SleepUnlock || c == SleepGo || c == Asleep || c == SleepDone
    || c == SleepRelock || c == Take
  }

  predicate Releasing(c: Pc) {
    c == WakeLockTable || c.WakeScan? || c == WakeDone || c == LeaveDone
  }

  /** acquiresleep does not return without the lock, and the lock is not had otherwise; the
      lock is given up only in releasesleep, which goes on to wake the sleepers. */
  predicate Orderly(c: Pc, c': Pc) {
    && (Acquiring(c) ==> Acquiring(c') || HasSleepLock(c'))
    && (HasSleepLock(c') && !HasSleepLock(c) ==> c == Take)
    && (HasSleepLock(c) ==> HasSleepLock(c') || c' == WakeLockTable)
    && (Releasing(c) ==> Releasing(c') || (c == LeaveDone && c' == Outside))
  }

  /** Every step of every process is orderly. */
  lemma NoWayRound(s: State, s': State, p: nat)
    requires Next(s, s') && p < |s.pc|
    ensures p < |s'.pc| && Orderly(s.pc[p], s'.pc[p])
  {
    if q :| CanStep(s, q) && s' == Step(s, q) {
      StepOrderly(s, q);
    }
  }

  lemma StepOrderly(s: State, p: nat)
    requires CanStep(s, p)
    ensures
      var s' := Step(s, p);
      s'.pc == s.pc[p := s'.pc[p]] && Orderly(s.pc[p], s'.pc[p])
  {
  }

  /** No wakeup is lost: a process asleep while the lock is free has its waker between
      clearing the lock and reaching its slot. */
  lemma NoLostWakeup(r: seq<State>, i: nat, p: nat)
    requires IsRun(r) && i < |r| && p in r[i].asleep && !r[i].locked
    ensures
      && r[i].lk.Some? && r[i].lk.value < |r[i].pc|
      && var c := r[i].pc[r[i].lk.value]; c == WakeLockTable || (c.WakeScan? && c.k <= p)
  {
    RunKeeps(r, i);
  }

  /** Nobody sleeps on a free lock once its spinlock is free. */
  lemma FreeLockNoSleeper(r: seq<State>, i: nat)
    requires IsRun(r) && i < |r| && r[i].lk == None && !r[i].locked
    ensures r[i].asleep == {}
  {
    RunKeeps(r, i);
  }

  /** And the waker keeps its word: when its scan is over, nobody is asleep. */
  lemma WakerWakes(r: seq<State>, i: nat, p: nat)
    requires IsRun(r) && i < |r| && p < |r[i].pc| && r[i].pc[p] == WakeDone
    ensures r[i].asleep == {}
  {
    RunKeeps(r, i);
  }
}
