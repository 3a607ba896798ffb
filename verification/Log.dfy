/**
 The in-memory half of the redo log: the `log` record that begin_op, log_write and
 end_op update under log.lock, for any number of file-system calls at once.

 Each section that runs under log.lock is one step.  log_write is two steps, because
 its "too big a transaction" guard reads lh.n before the lock is taken.  A panic is
 the absence of a step.
 */
module Log {
  import opened Common

  type Pid = nat

  /** `ops` records, for every call between begin_op and end_op, the blocks it has
      logged; `guarded` are the calls between log_write's guard and its append. */
  datatype State = State(
    lh: seq<nat>,
    outstanding: nat,
    committing: bool,
    ops: map<Pid, set<nat>>,
    guarded: set<Pid>)

  const Empty := State([], 0, false, map[], {})

  // ----- steps -------------------------------------------------------------

  predicate CanBegin(l: State, p: Pid) {
    p !in l.ops && !l.committing && |l.lh| + (l.outstanding + 1) * MAXOPBLOCKS <= LOGSIZE
  }

  function Begin(l: State, p: Pid): State {
    l.(outstanding := l.outstanding + 1, ops := l.ops[p := {}])
  }

  /** The unlocked guard; `size` is log.size, the number of log blocks on disk. */
  predicate CanGuard(l: State, p: Pid, size: int) {
    p in l.ops && p !in l.guarded && |l.lh| < LOGSIZE && |l.lh| < size - 1 && l.outstanding >= 1
  }

  function Guard(l: State, p: Pid): State {
    l.(guarded := l.guarded + {p})
  }

  /** The callers' side of the bargain: at most MAXOPBLOCKS distinct blocks a call. */
  predicate CanAppend(l: State, p: Pid, b: nat) {
    p in l.guarded && p in l.ops && |l.ops[p] + {b}| <= MAXOPBLOCKS
  }

  /** The locked part: a block already logged is absorbed, a new one is appended. */
  function Append(l: State, p: Pid, b: nat): State
    requires p in l.ops
  {
    l.(lh := if b in l.lh then l.lh else l.lh + [b],
       ops := l.ops[p := l.ops[p] + {b}],
       guarded := l.guarded - {p})
  }

  predicate CanEnd(l: State, p: Pid) {
    p in l.ops && p !in l.guarded && !l.committing && l.outstanding >= 1
  }

  function End(l: State, p: Pid): State
    requires l.outstanding >= 1
  {
    l.(outstanding := l.outstanding - 1, committing := l.outstanding == 1, ops := l.ops - {p})
  }

  /** commit() drops the in-memory header; end_op then lets callers in again. */
  function Forget(l: State): State {
    l.(lh := [])
  }

  function Finish(l: State): State {
    l.(committing := false)
  }

  ghost predicate Next(l: State, l': State, size: int) {
    || (exists p :: CanBegin(l, p) && l' == Begin(l, p))
    || (exists p :: CanGuard(l, p, size) && l' == Guard(l, p))
    || (exists p, b :: CanAppend(l, p, b) && l' == Append(l, p, b))
    || (exists p :: CanEnd(l, p) && l' == End(l, p))
    || (l.committing && l' == Forget(l))
    || (l.committing && l.lh == [] && l' == Finish(l))
  }

  ghost predicate IsRun(run: seq<State>, size: int) {
    && |run| > 0
    && run[0] == Empty
    && forall i :: 0 < i < |run| ==> Next(run[i - 1], run[i], size)
  }

  ghost predicate Reachable(l: State, size: int) {
    exists run :: IsRun(run, size) && run[|run| - 1] == l
  }

  // ----- the space reservation ---------------------------------------------

  /** Blocks the open calls may still add: MAXOPBLOCKS each, less what they logged. */
  ghost function Unused(ops: map<Pid, set<nat>>): int
    decreases |ops|
  {
    if |ops| == 0 then 0 else
      var p :| p in ops;
      assert |ops - {p}| < |ops| by { Shrinks(ops, p); }
      MAXOPBLOCKS - |ops[p]| + Unused(ops - {p})
  }

  lemma Shrinks(ops: map<Pid, set<nat>>, p: Pid)
    requires p in ops
    ensures |ops - {p}| == |ops| - 1
  {
    assert (ops - {p}).Keys == ops.Keys - {p};
    assert |ops.Keys - {p}| == |ops.Keys| - 1;
  }

  lemma {:induction false} UnusedSplits(ops: map<Pid, set<nat>>, p: Pid)
    requires p in ops
    ensures Unused(ops) == MAXOPBLOCKS - |ops[p]| + Unused(ops - {p})
    decreases |ops|
  {
    Shrinks(ops, p);
    var q :| q in ops && Unused(ops) == MAXOPBLOCKS - |ops[q]| + Unused(ops - {q});
    if q != p {
      Shrinks(ops, q);
      UnusedSplits(ops - {q}, p);
      UnusedSplits(ops - {p}, q);
      assert ops - {q} - {p} == ops - {p} - {q};
    }
  }

  lemma {:induction false} UnusedBounds(ops: map<Pid, set<nat>>)
    requires forall p :: p in ops ==> |ops[p]| <= MAXOPBLOCKS
    ensures 0 <= Unused(ops) <= MAXOPBLOCKS * |ops|
    decreases |ops|
  {
    if |ops| != 0 {
      var p :| p in ops && Unused(ops) == MAXOPBLOCKS - |ops[p]| + Unused(ops - {p});
      Shrinks(ops, p);
      UnusedBounds(ops - {p});
    }
  }

  ghost predicate Inv(l: State) {
    && Distinct(l.lh)
    && l.outstanding == |l.ops|
    && (forall p :: p in l.ops ==> |l.ops[p]| <= MAXOPBLOCKS && forall b :: b in l.ops[p] ==> b in l.lh)
    && l.guarded <= l.ops.Keys
    && |l.lh| + Unused(l.ops) <= LOGSIZE
    && (l.committing ==> l.ops == map[])
  }

  /** What was logged is committed before the last call's end_op returns. */
  predicate Settled(l: State) {
    l.ops == map[] && !l.committing ==> l.lh == []
  }

  lemma BeginReserves(l: State, p: Pid)
    requires Inv(l) && CanBegin(l, p)
    ensures |l.lh| + Unused(l.ops[p := {}]) <= LOGSIZE && |l.ops[p := {}]| == |l.ops| + 1
  {
    var ops' := l.ops[p := {}];
    assert ops' - {p} == l.ops;
    Shrinks(ops', p);
    UnusedSplits(ops', p);
    UnusedBounds(l.ops);
  }

  lemma BeginKeeps(l: State, p: Pid)
    requires Inv(l) && CanBegin(l, p)
    ensures Inv(Begin(l, p))
  {
    BeginReserves(l, p);
  }

  lemma AppendSpendsBudget(l: State, p: Pid, b: nat)
    requires Inv(l) && CanAppend(l, p, b)
    ensures |Append(l, p, b).lh| + Unused(Append(l, p, b).ops) <= LOGSIZE
  {
    var ops' := l.ops[p := l.ops[p] + {b}];
    assert ops' - {p} == l.ops - {p};
    UnusedSplits(l.ops, p);
    UnusedSplits(ops', p);
    if b in l.ops[p] {
      assert l.ops[p] + {b} == l.ops[p];
    }
  }

  lemma AppendKeeps(l: State, p: Pid, b: nat)
    requires Inv(l) && CanAppend(l, p, b)
    ensures Inv(Append(l, p, b))
  {
    AppendSpendsBudget(l, p, b);
    var l' := Append(l, p, b);
    assert l'.ops.Keys == l.ops.Keys;
    assert |l'.ops| == |l.ops|;
  }

  lemma EndKeeps(l: State, p: Pid)
    requires Inv(l) && CanEnd(l, p)
    ensures Inv(End(l, p)) && Settled(End(l, p))
  {
    Shrinks(l.ops, p);
    UnusedSplits(l.ops, p);
    if l.outstanding == 1 {
      assert |l.ops - {p}| == 0;
    }
  }

  lemma AppendFits(l: State, p: Pid, b: nat)
    requires Inv(l) && CanAppend(l, p, b)
    ensures |Append(l, p, b).lh| <= LOGSIZE
  {
    AppendKeeps(l, p, b);
    UnusedBounds(Append(l, p, b).ops);
  }

  lemma LastEndCloses(l: State, p: Pid)
    requires Inv(l) && CanEnd(l, p) && l.outstanding == 1
    ensures l.ops - {p} == map[]
  {
    Shrinks(l.ops, p);
  }

  lemma ForgetKeeps(l: State)
    requires Inv(l) && l.ops == map[]
    ensures Inv(Forget(l))
  {
  }

  lemma NextKeeps(l: State, l': State, size: int)
    requires Inv(l) && Next(l, l', size)
    ensures Inv(l')
    ensures Settled(l) ==> Settled(l')
    ensures l.committing && l'.committing ==> l'.lh == l.lh || l'.lh == []
  {
    if p :| CanBegin(l, p) && l' == Begin(l, p) {
      BeginKeeps(l, p);
    } else if p, b :| CanAppend(l, p, b) && l' == Append(l, p, b) {
      AppendKeeps(l, p, b);
    } else if p :| CanEnd(l, p) && l' == End(l, p) {
      EndKeeps(l, p);
    }
  }

  lemma {:induction false} RunKeeps(run: seq<State>, size: int)
    requires IsRun(run, size)
    ensures Inv(run[|run| - 1]) && Settled(run[|run| - 1])
    decreases |run|
  {
    if |run| > 1 {
      RunKeeps(run[..|run| - 1], size);
      NextKeeps(run[|run| - 2], run[|run| - 1], size);
    }
  }

  /** In every reachable state the logged blocks are distinct and, with what the open
      calls may still log, fit the in-memory header; nothing is open during a commit. */
  lemma ReservationHolds(l: State, size: int)
    requires Reachable(l, size)
    ensures Distinct(l.lh) && |l.lh| + Unused(l.ops) <= LOGSIZE && |l.lh| <= LOGSIZE
    ensures l.committing ==> l.outstanding == 0 && l.ops == map[]
  {
    var run :| IsRun(run, size) && run[|run| - 1] == l;
    RunKeeps(run, size);
    UnusedBounds(l.ops);
  }

  /** In every reachable state in which no call is open nothing is logged, but for the commit
      that the last of them is in. */
  lemma EndCommits(l: State, size: int)
    requires Reachable(l, size) && l.outstanding == 0
    ensures l.ops == map[] && (l.committing || l.lh == [])
  {
    var run :| IsRun(run, size) && run[|run| - 1] == l;
    RunKeeps(run, size);
  }

  /** begin_op makes a call wait, other than for a commit, only if the list and a full budget
      for it and for every open call do not fit; so it never waits for want of space when no
      call is open. */
  lemma BeginAdmits(l: State, size: int, p: Pid)
    requires Reachable(l, size) && !l.committing && p !in l.ops
    ensures CanBegin(l, p) <==> |l.lh| + MAXOPBLOCKS * |l.ops.Keys + {p}| <= LOGSIZE
    ensures l.ops == map[] ==> CanBegin(l, p)
  {
    var run :| IsRun(run, size) && run[|run| - 1] == l;
    RunKeeps(run, size);
    assert |l.ops.Keys| == |l.ops|;
  }

  // ----- what the guard of log_write decides -------------------------------

  /** With a log area of more than LOGSIZE blocks, the guard never stops a call that has
      budget left; it stops a call only when the header is full. */
  lemma GuardSparesTheFrugal(l: State, size: int, p: Pid)
    requires Reachable(l, size) && size > LOGSIZE && p in l.ops && p !in l.guarded
    ensures CanGuard(l, p, size) <==> |l.lh| < LOGSIZE
    ensures |l.ops[p]| < MAXOPBLOCKS ==> CanGuard(l, p, size)
  {
    var run :| IsRun(run, size) && run[|run| - 1] == l;
    RunKeeps(run, size);
    UnusedSplits(l.ops, p);
    Shrinks(l.ops, p);
    assert forall q :: q in l.ops - {p} ==> |(l.ops - {p})[q]| <= MAXOPBLOCKS;
    UnusedBounds(l.ops - {p});
  }

  /** Every logged block has a slot in the on-disk log area. */
  ghost predicate SlotsSuffice(size: int) {
    forall l :: Reachable(l, size) ==> |l.lh| == 0 || |l.lh| <= size - 1
  }

  // Three calls have logged k blocks between them: ten, nine and nine at most.
  ghost predicate Filled(l: State, k: nat) {
    && |l.lh| == k && l.outstanding == 3 && !l.committing && l.guarded == {}
    && l.ops.Keys == {0, 1, 2}
    && |l.ops[0]| == (if k < 10 then k else 10)
    && |l.ops[1]| == (if k < 10 then 0 else if k < 19 then k - 10 else 9)
    && |l.ops[2]| == (if k < 19 then 0 else k - 19)
    && (forall b :: b in l.lh ==> b < k)
    && (forall p, b :: p in l.ops && b in l.ops[p] ==> b < k)
  }

  lemma Extend(run: seq<State>, l': State, size: int)
    requires IsRun(run, size) && Next(run[|run| - 1], l', size)
    ensures IsRun(run + [l'], size)
  {
  }

  lemma StepReachable(l: State, l': State, size: int)
    requires Reachable(l, size) && Next(l, l', size)
    ensures Reachable(l', size)
  {
    var run :| IsRun(run, size) && run[|run| - 1] == l;
    Extend(run, l', size);
    assert (run + [l'])[|run + [l']| - 1] == l';
  }

  lemma BeginReachable(l: State, p: Pid, size: int)
    requires Reachable(l, size) && CanBegin(l, p)
    ensures Reachable(Begin(l, p), size)
  {
    StepReachable(l, Begin(l, p), size);
  }

  lemma LogReachable(l: State, p: Pid, b: nat, size: int)
    requires Reachable(l, size) && CanGuard(l, p, size) && CanAppend(Guard(l, p), p, b)
    ensures Reachable(Append(Guard(l, p), p, b), size)
  {
    StepReachable(l, Guard(l, p), size);
    StepReachable(Guard(l, p), Append(Guard(l, p), p, b), size);
  }

  lemma NoneFilled(size: int) returns (l: State)
    ensures Reachable(l, size) && Filled(l, 0)
  {
    assert IsRun([Empty], size);
    var l1 := Begin(Empty, 0);
    BeginReachable(Empty, 0, size);
    var l2 := Begin(l1, 1);
    BeginReachable(l1, 1, size);
    l := Begin(l2, 2);
    BeginReachable(l2, 2, size);
  }

  function Filler(k: nat): Pid {
    if k < 10 then 0 else if k < 19 then 1 else 2
  }

  lemma FilledStep(l: State, k: nat)
    requires Filled(l, k) && k < 28
    ensures CanAppend(Guard(l, Filler(k)), Filler(k), k)
    ensures Filled(Append(Guard(l, Filler(k)), Filler(k), k), k + 1)
  {
    var p := Filler(k);
    var l' := Append(Guard(l, p), p, k);
    assert |l.ops[p] + {k}| == |l.ops[p]| + 1;
    assert l'.ops.Keys == l.ops.Keys;
    assert l'.guarded == {};
  }

  lemma {:induction false} FilledReachable(k: nat, size: int) returns (l: State)
    requires k <= 28 && k < size
    ensures Reachable(l, size) && Filled(l, k)
  {
    if k == 0 {
      l := NoneFilled(size);
    } else {
      var m := FilledReachable(k - 1, size);
      FilledStep(m, k - 1);
      l := Append(Guard(m, Filler(k - 1)), Filler(k - 1), k - 1);
      LogReachable(m, Filler(k - 1), k - 1, size);
    }
  }

  lemma BothGuarded(k: nat, size: int) returns (l: State)
    requires k <= 28 && k + 1 < size
    ensures Reachable(l, size) && |l.lh| == k && l.guarded == {1, 2} && l.ops.Keys == {0, 1, 2}
    ensures |l.ops[1]| <= 9 && |l.ops[2]| <= 9
    ensures forall b :: b in l.lh ==> b < k
  {
    var m := FilledReachable(k, size);
    StepReachable(m, Guard(m, 1), size);
    l := Guard(Guard(m, 1), 2);
    StepReachable(Guard(m, 1), l, size);
  }

  /** Two calls that pass the unlocked guard together overrun a log area of 2..LOGSIZE
      blocks by one. */
  lemma RaceOverruns(size: int)
    requires 2 <= size <= LOGSIZE
    ensures exists l :: Reachable(l, size) && |l.lh| == size
  {
    var l := BothGuarded(size - 2, size);
    var l1 := Append(l, 1, size);
    assert CanAppend(l, 1, size);
    StepReachable(l, l1, size);
    var l2 := Append(l1, 2, size + 1);
    assert CanAppend(l1, 2, size + 1);
    StepReachable(l1, l2, size);
    assert |l2.lh| == size;
  }

  lemma {:induction false} TinyLogStaysEmpty(run: seq<State>, size: int)
    requires IsRun(run, size) && size <= 1
    ensures run[|run| - 1].lh == [] && run[|run| - 1].guarded == {}
    decreases |run|
  {
    if |run| > 1 {
      TinyLogStaysEmpty(run[..|run| - 1], size);
    }
  }

  /** The log area is large enough in every run exactly when it has more than LOGSIZE
      blocks (or is too small to be used at all).  mkfs builds one of LOGSIZE blocks. */
  lemma SlotsSufficeIff(size: int)
    ensures SlotsSuffice(size) <==> size > LOGSIZE || size <= 1
  {
    if size > LOGSIZE {
      forall l | Reachable(l, size) ensures |l.lh| <= size - 1 {
        ReservationHolds(l, size);
      }
    } else if size <= 1 {
      forall l | Reachable(l, size) ensures |l.lh| == 0 {
        var run :| IsRun(run, size) && run[|run| - 1] == l;
        TinyLogStaysEmpty(run, size);
      }
    } else {
      RaceOverruns(size);
    }
  }
}
