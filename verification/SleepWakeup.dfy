/**
 sleep and wakeup (proc.c), for any number of processes, channels and locks.

 A channel stands for a condition that changes only under the lock that sleepers on it pass
 to sleep.  A process that makes the condition true owes the channel a wakeup, which it may
 give before or after it releases the lock.  ptable.lock is lock 0; it may itself be the lock
 of a channel, as for wait and exit.  Processes are otherwise free: they take and release
 locks, change conditions, sleep and wake in any order.
 */
module SleepWakeup {
  datatype Pc =
    | Run
    | SleepTable(c: nat)       // sleep: acquire(&ptable.lock)
    | SleepUnlock(c: nat)      // release(lk)
    | Dozing(c: nat)           // chan, state = SLEEPING; sched()
    | Asleep(c: nat)           // in the scheduler's hands
    | Woken(c: nat)            // back from sched()
    | Relock(c: nat)           // acquire(lk)
    | Scan(c: nat, k: nat)     // wakeup1 at slot k

  /** `guard` gives the lock of each channel, `locks` the holder of each lock that is held,
      `ready` the channels whose condition is true, `asleep` what sleeping processes sleep
      on, and `owed` which processes owe which channels a wakeup. */
  datatype State = State(
    pc: seq<Pc>, guard: seq<nat>, locks: map<nat, nat>, ready: set<nat>, asleep: map<nat, nat>, owed: set<(nat, nat)>)

  const TABLE := 0

  datatype Label =
    | Acquire(p: nat, l: nat) | Release(p: nat, l: nat)
    | Set(p: nat, c: nat) | Clear(p: nat, c: nat)
    | Sleep(p: nat, c: nat) | Step(p: nat) | ScanStart(p: nat, c: nat)
    | Kill(q: nat)

  predicate Has(s: State, p: nat, l: nat) {
    l in s.locks && s.locks[l] == p
  }

  predicate At(s: State, p: nat, c: Pc) {
    p < |s.pc| && s.pc[p] == c
  }

  function Go(s: State, p: nat, c: Pc): State
    requires p < |s.pc|
  {
    s.(pc := s.pc[p := c])
  }

  /** What a process does on its own inside sleep or wakeup1. */
  predicate CanStep(s: State, p: nat) {
    && p < |s.pc| && (s.pc[p] == Run || s.pc[p].c < |s.guard|)
    && match s.pc[p]
       case Run => false
       case SleepTable(c) => TABLE !in s.locks
       case SleepUnlock(c) => true
       case Dozing(c) => true
       case Asleep(c) => p !in s.asleep && TABLE !in s.locks
       case Woken(c) => true
       case Relock(c) => s.guard[c] !in s.locks
       case Scan(c, k) => true
  }

  function DoStep(s: State, p: nat): State
    requires CanStep(s, p)
  {
    match s.pc[p]
    case Run => s
    case SleepTable(c) => Go(s, p, SleepUnlock(c)).(locks := s.locks[TABLE := p])
    case SleepUnlock(c) => Go(s, p, Dozing(c)).(locks := s.locks - {s.guard[c]})
    case Dozing(c) => Go(s, p, Asleep(c)).(locks := s.locks - {TABLE}, asleep := s.asleep[p := c])
    case Asleep(c) => Go(s, p, Woken(c)).(locks := s.locks[TABLE := p])
    case Woken(c) =>
      if s.guard[c] == TABLE then Go(s, p, Run) else Go(s, p, Relock(c)).(locks := s.locks - {TABLE})
    case Relock(c) => Go(s, p, Run).(locks := s.locks[s.guard[c] := p])
    case Scan(c, k) =>
      if k < |s.pc| then
        Go(s, p, Scan(c, k + 1)).(asleep := if k in s.asleep && s.asleep[k] == c then s.asleep - {k} else s.asleep)
      else Go(s, p, Run).(owed := s.owed - {(p, c)})
  }

  predicate Enabled(s: State, l: Label) {
    match l
    case Acquire(p, x) => At(s, p, Run) && x !in s.locks
    case Release(p, x) => At(s, p, Run) && Has(s, p, x)
    case Set(p, c) => At(s, p, Run) && c < |s.guard| && Has(s, p, s.guard[c])
    case Clear(p, c) => At(s, p, Run) && c < |s.guard| && Has(s, p, s.guard[c])
    case Sleep(p, c) =>
      && At(s, p, Run) && c < |s.guard| && Has(s, p, s.guard[c]) && c !in s.ready
      && (s.guard[c] != TABLE ==> !Has(s, p, TABLE))
    case Step(p) => CanStep(s, p)
    case ScanStart(p, c) => At(s, p, Run) && c < |s.guard| && Has(s, p, TABLE)
    case Kill(q) => TABLE !in s.locks
  }

  function Apply(s: State, l: Label): State
    requires Enabled(s, l)
  {
    match l
    case Acquire(p, x) => s.(locks := s.locks[x := p])
    case Release(p, x) => s.(locks := s.locks - {x})
    case Set(p, c) => s.(ready := s.ready + {c}, owed := s.owed + {(p, c)})
    case Clear(p, c) => s.(ready := s.ready - {c})
    case Sleep(p, c) => Go(s, p, if s.guard[c] == TABLE then Dozing(c) else SleepTable(c))
    case Step(p) => DoStep(s, p)
    case ScanStart(p, c) => Go(s, p, Scan(c, 0))
    case Kill(q) => s.(asleep := s.asleep - {q})
  }

  predicate Init(s: State) {
    (forall p :: 0 <= p < |s.pc| ==> s.pc[p] == Run) && s.locks == map[] && s.asleep == map[] && s.owed == {}
  }

  ghost predicate IsRun(r: seq<State>, ls: seq<Label>) {
    && |r| == |ls| + 1 && Init(r[0])
    && (forall i :: 0 <= i < |ls| ==> Enabled(r[i], ls[i]) && r[i + 1] == Apply(r[i], ls[i]))
  }

  // ----- invariant ---------------------------------------------------------

  /** The locks that process p holds where it is. */
  ghost predicate HoldsOk(s: State, p: nat)
    requires p < |s.pc|
  {
    && (s.pc[p] != Run ==> s.pc[p].c < |s.guard|)
    && match s.pc[p]
       case Run => true
       case SleepTable(c) => Has(s, p, s.guard[c]) && s.guard[c] != TABLE && c !in s.ready
       case SleepUnlock(c) => Has(s, p, s.guard[c]) && s.guard[c] != TABLE && Has(s, p, TABLE) && c !in s.ready
       case Dozing(c) => Has(s, p, TABLE) && (s.guard[c] == TABLE ==> c !in s.ready)
       case Asleep(c) => !Has(s, p, TABLE)
       case Woken(c) => Has(s, p, TABLE)
       case Relock(c) => !Has(s, p, TABLE) && s.guard[c] != TABLE
       case Scan(c, k) => Has(s, p, TABLE) && forall q :: q in s.asleep && q < k ==> s.asleep[q] != c
  }

  /** q owes channel c a wakeup, and has not passed slot p giving it. */
  predicate Owes(s: State, q: nat, c: nat, p: nat) {
    (q, c) in s.owed && q < |s.pc| && !(s.pc[q].Scan? && s.pc[q].c == c && s.pc[q].k > p)
  }

  ghost predicate Owed(s: State, c: nat, p: nat) {
    exists q: nat :: Owes(s, q, c, p)
  }

  /** A sleeper, or one about to be, whose condition holds will be woken. */
  ghost predicate SleeperOk(s: State, p: nat)
    requires p < |s.pc|
  {
    && (p in s.asleep ==> s.pc[p] == Asleep(s.asleep[p]) && (s.asleep[p] in s.ready ==> Owed(s, s.asleep[p], p)))
    && (s.pc[p].Dozing? && s.pc[p].c in s.ready ==> Owed(s, s.pc[p].c, p))
  }

  ghost predicate Inv(s: State) {
    && (forall p {:trigger HoldsOk(s, p)} :: 0 <= p < |s.pc| ==> HoldsOk(s, p))
    && (forall p {:trigger SleeperOk(s, p)} :: 0 <= p < |s.pc| ==> SleeperOk(s, p))
    && (forall p :: p in s.asleep ==> p < |s.pc|)
  }

  /** Who owed a wakeup still does. */
  lemma OwedKept(s: State, s': State, c: nat, p: nat)
    requires Owed(s, c, p) && |s'.pc| == |s.pc| && (forall x :: x in s.owed && x.1 == c ==> x in s'.owed)
    requires forall q :: 0 <= q < |s.pc| && s'.pc[q] != s.pc[q] ==> !s'.pc[q].Scan? || s'.pc[q].k <= p || s'.pc[q].c != c
    ensures Owed(s', c, p)
  {
    var q: nat :| Owes(s, q, c, p);
    assert (q, c) in s'.owed;
    assert Owes(s', q, c, p);
  }

  // ----- steps -------------------------------------------------------------

  lemma LockKeeps(s: State, l: Label)
    requires Inv(s) && Enabled(s, l) && (l.Acquire? || l.Release? || l.Kill?)
    ensures Inv(Apply(s, l))
  {
    var s' := Apply(s, l);
    forall p | 0 <= p < |s.pc| ensures HoldsOk(s', p) && SleeperOk(s', p) {
      assert HoldsOk(s, p) && SleeperOk(s, p);
      KeepOwed(s, s', p);
    }
  }

  lemma KeepOwed(s: State, s': State, p: nat)
    requires p < |s.pc| && SleeperOk(s, p) && s'.pc == s.pc && s'.ready == s.ready && s'.owed == s.owed
    requires p in s'.asleep ==> p in s.asleep && s'.asleep[p] == s.asleep[p]
    ensures SleeperOk(s', p)
  {
    if p in s'.asleep && s'.asleep[p] in s'.ready {
      OwedKept(s, s', s.asleep[p], p);
    }
    if s.pc[p].Dozing? && s.pc[p].c in s'.ready {
      OwedKept(s, s', s.pc[p].c, p);
    }
  }

  lemma CondKeeps(s: State, l: Label)
    requires Inv(s) && Enabled(s, l) && (l.Set? || l.Clear?)
    ensures Inv(Apply(s, l))
  {
    var s' := Apply(s, l);
    forall p | 0 <= p < |s.pc| ensures HoldsOk(s', p) && SleeperOk(s', p) {
      assert HoldsOk(s, p) && SleeperOk(s, p);
      if l.Set? {
        assert Owes(s', l.p, l.c, p);
      }
      if p in s.asleep && s.asleep[p] in s'.ready && s.asleep[p] != l.c {
        OwedKept(s, s', s.asleep[p], p);
      }
      if s.pc[p].Dozing? && s.pc[p].c in s'.ready && s.pc[p].c != l.c {
        OwedKept(s, s', s.pc[p].c, p);
      }
    }
  }

  /** Process p moves to c; what that asks of the others. */
  lemma MoveKeeps(s: State, s': State, p: nat)
    requires Inv(s) && p < |s.pc| == |s'.pc| && s'.pc == s.pc[p := s'.pc[p]] && s'.guard == s.guard && s'.ready == s.ready
    requires forall x, q :: q != p ==> (Has(s', q, x) <==> Has(s, q, x))
    requires forall q :: q in s'.asleep && (q != p || q in s.asleep) ==> q in s.asleep && s'.asleep[q] == s.asleep[q]
    requires forall q :: q in s'.asleep ==> q < |s.pc|
    requires p in s'.asleep && p !in s.asleep ==> forall q :: 0 <= q < |s.pc| && q != p ==> !s.pc[q].Scan?
    requires s'.owed == s.owed && (s'.pc[p].Scan? ==> s.pc[p] == Run && s'.pc[p].k == 0)
    requires HoldsOk(s', p) && SleeperOk(s', p)
    ensures Inv(s')
  {
    forall q | 0 <= q < |s.pc| ensures HoldsOk(s', q) && SleeperOk(s', q) {
      if q != p {
        assert HoldsOk(s, q) && SleeperOk(s, q);
        if q in s'.asleep && s'.asleep[q] in s'.ready {
          OwedKept(s, s', s.asleep[q], q);
        }
        if s.pc[q].Dozing? && s.pc[q].c in s'.ready {
          OwedKept(s, s', s.pc[q].c, q);
        }
      }
    }
  }

  lemma SleepKeeps(s: State, l: Label)
    requires Inv(s) && Enabled(s, l) && (l.Sleep? || l.ScanStart?)
    ensures Inv(Apply(s, l))
  {
    assert HoldsOk(s, l.p) && SleeperOk(s, l.p);
    MoveKeeps(s, Apply(s, l), l.p);
  }

  lemma StepKeeps(s: State, p: nat)
    requires Inv(s) && CanStep(s, p) && !s.pc[p].Scan?
    ensures Inv(DoStep(s, p))
  {
    var s' := DoStep(s, p);
    assert HoldsOk(s, p) && SleeperOk(s, p);
    forall q | 0 <= q < |s.pc| && q != p && s.pc[p].Dozing? ensures !s.pc[q].Scan? {
      assert HoldsOk(s, q);
    }
    if s.pc[p].Dozing? && s.pc[p].c in s.ready {
      OwedKept(s, s', s.pc[p].c, p);
    }
    MoveKeeps(s, s', p);
  }

  /** wakeup1 at slot k, and at the end. */
  lemma ScanKeeps(s: State, p: nat)
    requires Inv(s) && CanStep(s, p) && s.pc[p].Scan?
    ensures Inv(DoStep(s, p))
  {
    var s', c, k := DoStep(s, p), s.pc[p].c, s.pc[p].k;
    assert HoldsOk(s, p);
    forall q | 0 <= q < |s.pc| ensures HoldsOk(s', q) && SleeperOk(s', q) {
      assert HoldsOk(s, q) && SleeperOk(s, q);
      if q in s'.asleep && s'.asleep[q] in s'.ready {
        ScanOwed(s, p, s.asleep[q], q);
      }
    }
  }

  /** A sleeper that the scan has passed is owed by another. */
  lemma ScanOwed(s: State, p: nat, c: nat, q: nat)
    requires CanStep(s, p) && s.pc[p].Scan? && q < |s.pc| && Owed(s, c, q) && q in DoStep(s, p).asleep && s.asleep[q] == c
    ensures Owed(DoStep(s, p), c, q)
  {
    var x: nat :| Owes(s, x, c, q);
    assert Owes(DoStep(s, p), x, c, q);
  }

  lemma NextKeeps(s: State, l: Label)
    requires Inv(s) && Enabled(s, l)
    ensures Inv(Apply(s, l))
  {
    if l.Acquire? || l.Release? || l.Kill? {
      LockKeeps(s, l);
    } else if l.Set? || l.Clear? {
      CondKeeps(s, l);
    } else if l.Sleep? || l.ScanStart? {
      SleepKeeps(s, l);
    } else if s.pc[l.p].Scan? {
      ScanKeeps(s, l.p);
    } else {
      StepKeeps(s, l.p);
    }
  }

  lemma {:induction false} RunKeeps(r: seq<State>, ls: seq<Label>, i: nat)
    requires IsRun(r, ls) && i < |r|
    ensures Inv(r[i])
  {
    if i > 0 {
      RunKeeps(r, ls, i - 1);
      RunStep(r, ls, i - 1);
    }
  }

  lemma RunStep(r: seq<State>, ls: seq<Label>, i: nat)
    requires IsRun(r, ls) && i < |ls| && Inv(r[i])
    ensures Inv(r[i + 1])
  {
    NextKeeps(r[i], ls[i]);
  }

  // ----- what it means -----------------------------------------------------

  /** No wakeup is lost: a process that sleeps although its condition holds is owed a wakeup
      by a process that has not come to its slot. */
  lemma NoLostWakeup(r: seq<State>, ls: seq<Label>, i: nat, p: nat)
    requires IsRun(r, ls) && i < |r| && p in r[i].asleep && r[i].asleep[p] in r[i].ready
    ensures exists q: nat :: Owes(r[i], q, r[i].asleep[p], p)
  {
    RunKeeps(r, ls, i);
    assert SleeperOk(r[i], p);
  }

  /** So, with all wakeups given, whoever sleeps has reason to. */
  lemma SleepersWait(r: seq<State>, ls: seq<Label>, i: nat, p: nat)
    requires IsRun(r, ls) && i < |r| && p in r[i].asleep && forall q: nat :: (q, r[i].asleep[p]) !in r[i].owed
    ensures r[i].asleep[p] !in r[i].ready
  {
    if r[i].asleep[p] in r[i].ready {
      NoLostWakeup(r, ls, i, p);
    }
  }

  /** And a wakeup wakes all: at the end of its scan nobody sleeps on the channel. */
  lemma WakeupWakesAll(r: seq<State>, ls: seq<Label>, i: nat, p: nat, q: nat)
    requires IsRun(r, ls) && i < |r| && p < |r[i].pc| && r[i].pc[p].Scan? && r[i].pc[p].k >= |r[i].pc|
    ensures q in r[i].asleep ==> r[i].asleep[q] != r[i].pc[p].c
  {
    RunKeeps(r, ls, i);
    assert HoldsOk(r[i], p);
  }

  /** sleep returns with the lock that it was called with, and gave up the processor with no
      chance for a wakeup between: while a process is past its test and not yet asleep, it
      holds the lock of its channel or ptable.lock. */
  lemma SleepIsAtomic(r: seq<State>, ls: seq<Label>, i: nat, p: nat)
    requires IsRun(r, ls) && i < |r| && p < |r[i].pc|
    ensures r[i].pc[p].SleepTable? || r[i].pc[p].SleepUnlock? ==>
              r[i].pc[p].c < |r[i].guard| && Has(r[i], p, r[i].guard[r[i].pc[p].c]) && r[i].pc[p].c !in r[i].ready
    ensures r[i].pc[p].SleepUnlock? || r[i].pc[p].Dozing? ==> Has(r[i], p, TABLE)
  {
    RunKeeps(r, ls, i);
    assert HoldsOk(r[i], p);
  }

  // ----- what was asked for ------------------------------------------------

  /** By the calls: the sleep or wakeup that each process is in, the conditions set and not
      cleared since, the wakeups owed since, and who has been asleep since it called sleep. */
  datatype Told = Told(doing: map<nat, Label>, ready: set<nat>, owed: set<(nat, nat)>, slept: set<nat>)

  /** `back`: the process has come back to where it called sleep or wakeup. */
  function ToldNext(t: Told, l: Label, back: bool, asleep: set<nat>): Told {
    match l
    case Set(p, c) => t.(ready := t.ready + {c}, owed := t.owed + {(p, c)})
    case Clear(p, c) => t.(ready := t.ready - {c})
    case Sleep(p, c) => t.(doing := t.doing[p := l], slept := t.slept - {p})
    case ScanStart(p, c) => t.(doing := t.doing[p := l])
    case Step(p) =>
      if !back || p !in t.doing then t.(slept := t.slept + asleep)
      else if t.doing[p].ScanStart? then t.(doing := t.doing - {p}, owed := t.owed - {(p, t.doing[p].c)})
      else t.(doing := t.doing - {p})
    case _ => t
  }

  ghost predicate IsBack(s: State, l: Label) {
    l.Step? && At(s, l.p, Run)
  }

  ghost function ToldAt(r: seq<State>, ls: seq<Label>, i: nat): Told
    requires |r| == |ls| + 1 && i < |r|
  {
    if i == 0 then Told(map[], r[0].ready, {}, {})
    else ToldNext(ToldAt(r, ls, i - 1), ls[i - 1], IsBack(r[i], ls[i - 1]), r[i].asleep.Keys)
  }

  /** A process is in the call that it made. */
  ghost predicate DoingOk(s: State, t: Told, p: nat)
    requires p < |s.pc|
  {
    match s.pc[p]
    case Run => p !in t.doing
    case Scan(c, k) => p in t.doing && t.doing[p] == ScanStart(p, c)
    case _ =>
      && p in t.doing && t.doing[p] == Sleep(p, s.pc[p].c)
      && (s.pc[p].Asleep? || s.pc[p].Woken? || s.pc[p].Relock? ==> p in t.slept)
  }

  ghost predicate Agrees(s: State, t: Told) {
    && t.ready == s.ready && t.owed == s.owed
    && forall p {:trigger DoingOk(s, t, p)} :: 0 <= p < |s.pc| ==> DoingOk(s, t, p)
  }

  lemma StepAgrees(s: State, t: Told, l: Label)
    requires Enabled(s, l) && Agrees(s, t)
    ensures Agrees(Apply(s, l), ToldNext(t, l, IsBack(Apply(s, l), l), Apply(s, l).asleep.Keys))
  {
    var s' := Apply(s, l);
    var t' := ToldNext(t, l, IsBack(s', l), s'.asleep.Keys);
    if l.Step? {
      assert DoingOk(s, t, l.p);
    }
    forall p | 0 <= p < |s'.pc| ensures DoingOk(s', t', p) {
      assert DoingOk(s, t, p);
    }
  }

  lemma {:induction false} RunAgrees(r: seq<State>, ls: seq<Label>, i: nat)
    requires IsRun(r, ls) && i < |r|
    ensures Agrees(r[i], ToldAt(r, ls, i))
  {
    if i > 0 {
      RunAgrees(r, ls, i - 1);
      StepAgrees(r[i - 1], ToldAt(r, ls, i - 1), ls[i - 1]);
    }
  }

  /** In every run: a condition is true if it was last set, a sleeper is on the channel it
      called sleep with, a wakeup is owed from when the condition is set until it is given, and
      a process is about its own business just when it is in neither call. */
  lemma AsAsked(r: seq<State>, ls: seq<Label>, i: nat, p: nat)
    requires IsRun(r, ls) && i < |r|
    ensures r[i].ready == ToldAt(r, ls, i).ready && r[i].owed == ToldAt(r, ls, i).owed
    ensures p < |r[i].pc| ==> (r[i].pc[p] == Run <==> p !in ToldAt(r, ls, i).doing)
    ensures p in r[i].asleep ==> p in ToldAt(r, ls, i).doing && ToldAt(r, ls, i).doing[p] == Sleep(p, r[i].asleep[p])
  {
    RunAgrees(r, ls, i);
    RunKeeps(r, ls, i);
    if p < |r[i].pc| {
      assert DoingOk(r[i], ToldAt(r, ls, i), p);
    }
    if p in r[i].asleep {
      assert SleeperOk(r[i], p) && DoingOk(r[i], ToldAt(r, ls, i), p);
    }
  }

  /** When sleep returns, its caller has been asleep, has the lock of the channel that it
      slept on, and has ptable.lock only if that is the lock. */
  lemma SleepReturns(r: seq<State>, ls: seq<Label>, i: nat, p: nat)
    requires IsRun(r, ls) && i < |ls| && ls[i] == Step(p) && At(r[i + 1], p, Run) && !r[i].pc[p].Scan?
    ensures
      var t := ToldAt(r, ls, i);
      && p in t.slept && p in t.doing && t.doing[p].Sleep? && t.doing[p].c < |r[i].guard| && r[i + 1].guard == r[i].guard
      && Has(r[i + 1], p, r[i].guard[t.doing[p].c])
      && (Has(r[i + 1], p, TABLE) <==> r[i].guard[t.doing[p].c] == TABLE)
  {
    RunAgrees(r, ls, i);
    RunKeeps(r, ls, i);
    assert HoldsOk(r[i], p) && DoingOk(r[i], ToldAt(r, ls, i), p);
  }

  /** kill takes a process out of its sleep. */
  lemma KilledGoesOn(r: seq<State>, ls: seq<Label>, i: nat, q: nat)
    requires IsRun(r, ls) && i < |ls| && ls[i] == Kill(q) && q in r[i].asleep
    ensures CanStep(r[i + 1], q)
  {
    RunKeeps(r, ls, i);
    assert SleeperOk(r[i], q) && HoldsOk(r[i], q);
  }
}
