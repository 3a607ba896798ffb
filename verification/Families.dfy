/**
 Whose child a process is (proc.c), told by the calls alone: which process a processor was
 given, who called fork and for which slot, and how far an exit has gone through the table.
 */
module Families {
  import opened Common
  import opened Procs

  /** The slot each processor was given, the process in each slot, who forked each process,
      how many slots each exit has been through, and what each slot last slept on. */
  datatype Told = Told(on: map<nat, nat>, name: map<nat, nat>, maker: map<nat, nat>, scan: map<nat, nat>,
                       asked: map<nat, Chan>, count: nat)

  /** The process on processor c. */
  function Caller(t: Told, c: nat): Option<nat> {
    if c in t.on && t.on[c] in t.name then Some(t.name[t.on[c]]) else None
  }

  function ToldNext(t: Told, l: Label): Told {
    match l
    case SchedRun(c, p) => t.(on := t.on[c := p])
    case Sleep(c, n) => if c in t.on then t.(asked := t.asked[t.on[c] := Other(n)]) else t
    case WaitSleep(c) => if c in t.on then t.(asked := t.asked[t.on[c] := OfProc(t.on[c])]) else t
    case ForkAlloc(c, np) =>
      if Caller(t, c).Some?
      then t.(name := t.name[np := t.count], maker := t.maker[t.count := Caller(t, c).value], count := t.count + 1) else t
    case ExitStart(c) => if Caller(t, c).Some? then t.(scan := t.scan[Caller(t, c).value := 0]) else t
    case ExitStep(c) =>
      if Caller(t, c).Some? && Caller(t, c).value in t.scan
      then t.(scan := t.scan[Caller(t, c).value := t.scan[Caller(t, c).value] + 1]) else t
    case _ => t
  }

  /** After the first n calls; process 1 is in slot init. */
  function ToldAt(init: nat, ls: seq<Label>, n: nat): Told
    requires n <= |ls|
  {
    if n == 0 then Told(map[], map[init := 1], map[], map[], map[], 2) else ToldNext(ToldAt(init, ls, n - 1), ls[n - 1])
  }

  /** Its maker's exit has been through slot q. */
  predicate Passed(t: Told, x: nat, q: nat) {
    x in t.maker && t.maker[x] in t.scan && q < t.scan[t.maker[x]]
  }

  /** Whose child process x, in slot q, is. */
  function Heir(t: Told, x: nat, q: nat): nat
    requires x in t.maker
  {
    if Passed(t, x, q) then 1 else t.maker[x]
  }

  // ----- a slot and a processor --------------------------------------------

  predicate Forked(s: State, q: nat)
    requires q < |s.procs|
  {
    q != s.init && (Alive(s.procs[q].state) || s.procs[q].state == ZOMBIE)
  }

  ghost predicate ChildOk(s: State, t: Told, q: nat)
    requires q < |s.procs|
  {
    Forked(s, q) ==>
      var x, parent := s.procs[q].serial, s.procs[q].parent;
      x in t.maker && parent.Some? && parent.value < |s.procs| && s.procs[parent.value].serial == Heir(t, x, q)
  }

  ghost predicate SlotOk(s: State, t: Told, q: nat)
    requires q < |s.procs|
  {
    RestOk(s.procs[q], t, q) && ChildOk(s, t, q)
  }

  ghost predicate RestOk(x: Proc, t: Told, q: nat) {
    && (x.state != UNUSED ==> q in t.name && t.name[q] == x.serial)
    && (x.state == RUNNABLE || x.state == SLEEPING || x.state == EMBRYO ==> x.serial !in t.scan)
    && (x.state == SLEEPING ==> q in t.asked && t.asked[q] == x.chan)
  }

  ghost predicate MakerOk(s: State, t: Told, p: nat)
    requires p < |s.procs| && p < |s.job|
  {
    s.job[p].Fork? && s.job[p].np < |s.procs| ==>
      s.procs[s.job[p].np].serial in t.maker && t.maker[s.procs[s.job[p].np].serial] == s.procs[p].serial
  }

  ghost predicate PlaceOk(s: State, t: Told, c: nat)
    requires c < |s.cpu|
  {
    s.cpu[c].Run? ==>
      var p, at := s.cpu[c].p, s.cpu[c].at;
      && c in t.on && t.on[c] == p && p < |s.procs|
      && (at.ExitScan? ==> s.procs[p].serial in t.scan && t.scan[s.procs[p].serial] == at.k)
      && (!at.ExitScan? && at != Leaving ==> s.procs[p].serial !in t.scan)
      && (at != Arrived && at != Leaving ==> s.procs[p].chan == NoChan)
  }

  ghost predicate Agrees(s: State, t: Told) {
    && WellFormed(s) && t.count == s.nextserial && s.procs[s.init].serial == 1 && (forall y :: y in t.scan ==> y < t.count)
    && (forall q {:trigger SlotOk(s, t, q)} :: 0 <= q < |s.procs| ==> SlotOk(s, t, q))
    && (forall q {:trigger MakerOk(s, t, q)} :: 0 <= q < |s.procs| ==> MakerOk(s, t, q))
    && (forall c {:trigger PlaceOk(s, t, c)} :: 0 <= c < |s.cpu| ==> PlaceOk(s, t, c))
  }

  lemma CallerIs(s: State, t: Told, c: nat)
    requires Inv(s) && Agrees(s, t) && AtRun(s, c)
    ensures c in t.on && t.on[c] == s.cpu[c].p
    ensures s.cpu[c].at != Leaving ==> Caller(t, c) == Some(s.procs[s.cpu[c].p].serial) && s.procs[s.cpu[c].p].state == RUNNING
  {
    assert PlaceOk(s, t, c) && CpuOk(s, c);
    assert SlotOk(s, t, s.cpu[c].p);
  }

  // ----- steps that leave the family alone ---------------------------------

  predicate Quiet(l: Label) {
    || l.SchedLock? || l.SchedRun? || l.SchedUnlock? || l.Arrive? || l.Leave? || l.LeaveDone? || l.Yield? || l.Sleep?
    || l.Wakeup? || l.Kill? || l.WaitStart? || l.WaitStep? || l.WaitSleep? || l.WaitQuit?
  }

  lemma QuietTable(s: State, l: Label)
    requires Inv(s) && Enabled(s, l) && Quiet(l)
    ensures SameTable(s, Apply(s, l))
  {
    if l.Wakeup? {
      WokenSame(s.procs, Other(l.n));
    } else if !l.SchedLock? && !l.SchedRun? && !l.SchedUnlock? && !l.Kill? && !l.LeaveDone? {
      assert CpuOk(s, l.c);
    }
  }

  lemma QuietSlot(s: State, t: Told, l: Label, q: nat)
    requires Inv(s) && Agrees(s, t) && Enabled(s, l) && Quiet(l) && q < |s.procs|
    ensures q < |Apply(s, l).procs| && SlotOk(Apply(s, l), ToldNext(t, l), q)
  {
    QuietTable(s, l);
    assert SlotOk(s, t, q);
    ChildKept(s, t, Apply(s, l), ToldNext(t, l), q);
    QuietRest(s, t, l, q);
  }

  lemma ChildKept(s: State, t: Told, s': State, t': Told, q: nat)
    requires SameTable(s, s') && t'.maker == t.maker && t'.scan == t.scan && q < |s.procs| && ChildOk(s, t, q)
    ensures ChildOk(s', t', q)
  {
    assert SameProc(s.procs[q], s'.procs[q]);
    if Forked(s, q) {
      assert SameProc(s.procs[s.procs[q].parent.value], s'.procs[s.procs[q].parent.value]);
    }
  }

  lemma QuietRest(s: State, t: Told, l: Label, q: nat)
    requires Inv(s) && Agrees(s, t) && Enabled(s, l) && Quiet(l) && q < |s.procs|
    ensures q < |Apply(s, l).procs| && RestOk(Apply(s, l).procs[q], ToldNext(t, l), q)
  {
    assert SlotOk(s, t, q);
    if l.Yield? || l.Sleep? || l.WaitSleep? || l.Arrive? {
      OwnRest(s, t, l, q);
    }
  }

  lemma OwnRest(s: State, t: Told, l: Label, q: nat)
    requires Inv(s) && Agrees(s, t) && Enabled(s, l) && (l.Yield? || l.Sleep? || l.Arrive? || l.WaitSleep?) && q < |s.procs|
    ensures q < |Apply(s, l).procs| && RestOk(Apply(s, l).procs[q], ToldNext(t, l), q)
  {
    CallerIs(s, t, l.c);
    assert PlaceOk(s, t, l.c) && SlotOk(s, t, q);
  }

  lemma QuietPlace(s: State, t: Told, l: Label, c: nat)
    requires Inv(s) && Agrees(s, t) && Enabled(s, l) && Quiet(l) && c < |s.cpu|
    ensures c < |Apply(s, l).cpu| && PlaceOk(Apply(s, l), ToldNext(t, l), c)
  {
    assert PlaceOk(s, t, c) && CpuOk(s, c);
    if l.Yield? || l.Sleep? || l.Arrive? || l.WaitSleep? {
      OwnPlace(s, t, l, c);
    } else if l.SchedRun? {
      assert SlotOk(s, t, l.p);
    }
  }

  lemma OwnPlace(s: State, t: Told, l: Label, c: nat)
    requires Inv(s) && Agrees(s, t) && Enabled(s, l) && (l.Yield? || l.Sleep? || l.Arrive? || l.WaitSleep?) && c < |s.cpu|
    ensures c < |Apply(s, l).cpu| && PlaceOk(Apply(s, l), ToldNext(t, l), c)
  {
    assert PlaceOk(s, t, c) && CpuOk(s, c);
    OtherPlace(s, t, l.c, c);
  }

  lemma QuietAgrees(s: State, t: Told, l: Label)
    requires Inv(s) && Agrees(s, t) && Enabled(s, l) && Quiet(l)
    ensures Agrees(Apply(s, l), ToldNext(t, l))
  {
    var s', t' := Apply(s, l), ToldNext(t, l);
    QuietTable(s, l);
    assert SameProc(s.procs[s.init], s'.procs[s.init]);
    forall q | 0 <= q < |s'.procs| ensures SlotOk(s', t', q) && MakerOk(s', t', q) {
      QuietSlot(s, t, l, q);
      QuietMaker(s, t, l, q);
    }
    forall c | 0 <= c < |s'.cpu| ensures PlaceOk(s', t', c) {
      QuietPlace(s, t, l, c);
    }
  }

  lemma QuietMaker(s: State, t: Told, l: Label, p: nat)
    requires Inv(s) && Agrees(s, t) && Enabled(s, l) && Quiet(l) && p < |s.procs|
    ensures p < |Apply(s, l).procs| && MakerOk(Apply(s, l), ToldNext(t, l), p)
  {
    QuietTable(s, l);
    assert MakerOk(s, t, p) && ForkOk(s, p);
    assert SameProc(s.procs[p], Apply(s, l).procs[p]);
    if s.job[p].Fork? {
      assert SameProc(s.procs[s.job[p].np], Apply(s, l).procs[s.job[p].np]);
    }
  }

  // ----- fork, exit and wait -----------------------------------------------

  lemma ForkAllocAgrees(s: State, t: Told, c: nat, np: nat)
    requires Inv(s) && Agrees(s, t) && CanForkAlloc(s, c, np)
    ensures Agrees(DoForkAlloc(s, c, np), ToldNext(t, ForkAlloc(c, np)))
  {
    var s', t' := DoForkAlloc(s, c, np), ToldNext(t, ForkAlloc(c, np));
    CallerIs(s, t, c);
    forall q | 0 <= q < |s'.procs| ensures SlotOk(s', t', q) && MakerOk(s', t', q) {
      assert SlotOk(s, t, q) && FamilyOk(s, q) && PidOk(s, q) && MakerOk(s, t, q) && ForkOk(s, q);
      if s.job[q].Fork? {
        assert PidOk(s, s.job[q].np);
      }
    }
    forall d | 0 <= d < |s'.cpu| ensures PlaceOk(s', t', d) {
      assert PlaceOk(s, t, d) && CpuOk(s, d);
    }
  }

  lemma ForkAgrees(s: State, t: Told, l: Label)
    requires Inv(s) && Agrees(s, t) && Enabled(s, l) && (l.ForkFail? || l.ForkLink? || l.ForkDone?)
    ensures Agrees(Apply(s, l), ToldNext(t, l))
  {
    var s', p := Apply(s, l), s.cpu[l.c].p;
    assert CpuOk(s, l.c) && ForkOk(s, p);
    forall q | 0 <= q < |s'.procs| ensures SlotOk(s', t, q) && MakerOk(s', t, q) {
      ForkSlot(s, t, l, q);
      assert MakerOk(s, t, q) && ForkOk(s, q);
    }
    forall d | 0 <= d < |s'.cpu| ensures PlaceOk(s', t, d) {
      assert PlaceOk(s, t, d) && CpuOk(s, d);
    }
  }

  lemma ForkSlot(s: State, t: Told, l: Label, q: nat)
    requires Inv(s) && Agrees(s, t) && Enabled(s, l) && (l.ForkFail? || l.ForkLink? || l.ForkDone?) && q < |s.procs|
    ensures q < |Apply(s, l).procs| && SlotOk(Apply(s, l), t, q)
  {
    var p := s.cpu[l.c].p;
    assert CpuOk(s, l.c) && ForkOk(s, p) && MakerOk(s, t, p) && PlaceOk(s, t, l.c);
    assert SlotOk(s, t, q) && FamilyOk(s, q);
  }

  lemma ExitStartAgrees(s: State, t: Told, c: nat)
    requires Inv(s) && Agrees(s, t) && CanExitStart(s, c)
    ensures Agrees(DoExitStart(s, c), ToldNext(t, ExitStart(c)))
  {
    var s', t', p := DoExitStart(s, c), ToldNext(t, ExitStart(c)), s.cpu[c].p;
    CallerIs(s, t, c);
    assert PlaceOk(s, t, c) && PidOk(s, p);
    WokenSame(s.procs, OfProc(s.procs[p].parent.value));
    forall q | 0 <= q < |s'.procs| ensures SlotOk(s', t', q) && MakerOk(s', t', q) {
      ExitStartSlot(s, t, c, q);
      assert MakerOk(s, t, q) && ForkOk(s, q);
      assert SameProc(s.procs[q], s'.procs[q]);
    }
    forall d | 0 <= d < |s'.cpu| ensures PlaceOk(s', t', d) {
      OtherPlace(s, t, c, d);
    }
  }

  lemma ExitStartSlot(s: State, t: Told, c: nat, q: nat)
    requires Inv(s) && Agrees(s, t) && CanExitStart(s, c) && q < |s.procs|
    ensures q < |DoExitStart(s, c).procs| && SlotOk(DoExitStart(s, c), ToldNext(t, ExitStart(c)), q)
  {
    var p := s.cpu[c].p;
    CallerIs(s, t, c);
    assert PlaceOk(s, t, c) && SlotOk(s, t, q) && FamilyOk(s, q);
    WokenSame(s.procs, OfProc(s.procs[p].parent.value));
    SamePerson(s, p, q);
  }

  /** Another processor has another process. */
  lemma OtherPlace(s: State, t: Told, c: nat, d: nat)
    requires Inv(s) && Agrees(s, t) && AtRun(s, c) && d < |s.cpu|
    ensures PlaceOk(s, t, d)
    ensures d != c && s.cpu[d].Run? ==> s.cpu[d].p < |s.procs| && s.cpu[d].p != s.cpu[c].p && (
              s.cpu[c].at != Leaving && s.cpu[d].at != Leaving ==> s.procs[s.cpu[d].p].serial != s.procs[s.cpu[c].p].serial)
  {
    assert PlaceOk(s, t, d) && CpuOk(s, d) && CpuOk(s, c);
    if d != c && s.cpu[d].Run? {
      assert OnPgdir(s.cpu[d], s.cpu[d].p) && OnPgdir(s.cpu[c], s.cpu[c].p);
      assert s.cpu[d].at != Leaving && s.cpu[c].at != Leaving ==> InUse(s.procs[s.cpu[c].p]) && InUse(s.procs[s.cpu[d].p]);
    }
  }

  lemma ExitStepSlot(s: State, t: Told, c: nat, q: nat)
    requires Inv(s) && Agrees(s, t) && CanExitStep(s, c) && q < |s.procs|
    ensures q < |DoExitStep(s, c).procs| && SlotOk(DoExitStep(s, c), ToldNext(t, ExitStep(c)), q)
  {
    var s', t', p, k := DoExitStep(s, c), ToldNext(t, ExitStep(c)), s.cpu[c].p, s.cpu[c].at.k;
    CallerIs(s, t, c);
    assert PlaceOk(s, t, c) && SlotOk(s, t, q) && FamilyOk(s, q);
    assert t'.maker == t.maker && t'.scan == t.scan[s.procs[p].serial := k + 1];
    if s.procs[k].parent == Some(p) {
      ExitStepShape(s, c);
    }
    if Forked(s, q) {
      SamePerson(s, p, s.procs[q].parent.value);
    }
    SamePerson(s, p, q);
  }

  /** Two slots in use with the same number are one. */
  lemma SamePerson(s: State, p: nat, q: nat)
    requires Inv(s) && p < |s.procs| && q < |s.procs|
    ensures InUse(s.procs[p]) && InUse(s.procs[q]) && s.procs[p].serial == s.procs[q].serial ==> p == q
  {
  }

  lemma ExitStepAgrees(s: State, t: Told, c: nat)
    requires Inv(s) && Agrees(s, t) && CanExitStep(s, c)
    ensures Agrees(DoExitStep(s, c), ToldNext(t, ExitStep(c)))
  {
    var s', t' := DoExitStep(s, c), ToldNext(t, ExitStep(c));
    CallerIs(s, t, c);
    assert PlaceOk(s, t, c) && PidOk(s, s.cpu[c].p);
    if s.procs[s.cpu[c].at.k].parent == Some(s.cpu[c].p) {
      ExitStepShape(s, c);
    }
    forall q | 0 <= q < |s'.procs| ensures SlotOk(s', t', q) && MakerOk(s', t', q) {
      ExitStepSlot(s, t, c, q);
      assert MakerOk(s, t, q) && ForkOk(s, q);
    }
    forall d | 0 <= d < |s'.cpu| ensures PlaceOk(s', t', d) {
      OtherPlace(s, t, c, d);
    }
  }

  lemma ExitEndAgrees(s: State, t: Told, c: nat)
    requires Inv(s) && Agrees(s, t) && CanExitEnd(s, c)
    ensures Agrees(DoExitEnd(s, c), t)
  {
    var s' := DoExitEnd(s, c);
    CallerIs(s, t, c);
    forall q | 0 <= q < |s'.procs| ensures SlotOk(s', t, q) && MakerOk(s', t, q) {
      assert SlotOk(s, t, q) && MakerOk(s, t, q) && ForkOk(s, q);
    }
    forall d | 0 <= d < |s'.cpu| ensures PlaceOk(s', t, d) {
      OtherPlace(s, t, c, d);
    }
  }

  lemma WaitReapAgrees(s: State, t: Told, c: nat)
    requires Inv(s) && Agrees(s, t) && CanWaitReap(s, c)
    ensures Agrees(DoWaitReap(s, c), t)
  {
    var s', k := DoWaitReap(s, c), s.cpu[c].at.k;
    CallerIs(s, t, c);
    forall q | 0 <= q < |s'.procs| ensures SlotOk(s', t, q) && MakerOk(s', t, q) {
      assert SlotOk(s, t, q) && FamilyOk(s, q) && MakerOk(s, t, q) && ForkOk(s, q);
    }
    forall d | 0 <= d < |s'.cpu| ensures PlaceOk(s', t, d) {
      assert PlaceOk(s, t, d) && CpuOk(s, d) && PlaceOk(s, t, c) && CpuOk(s, c);
      assert HasLock(s.cpu[d]) <==> s.lock == Some(d);
      assert HasLock(s.cpu[c]) <==> s.lock == Some(c);
    }
  }

  lemma StepAgrees(s: State, t: Told, l: Label)
    requires Inv(s) && Agrees(s, t) && Enabled(s, l)
    ensures Agrees(Apply(s, l), ToldNext(t, l))
  {
    match l
    case ForkAlloc(c, np) => ForkAllocAgrees(s, t, c, np);
    case ForkFail(_) => ForkAgrees(s, t, l);
    case ForkLink(_) => ForkAgrees(s, t, l);
    case ForkDone(_) => ForkAgrees(s, t, l);
    case ExitStart(c) => ExitStartAgrees(s, t, c);
    case ExitStep(c) => ExitStepAgrees(s, t, c);
    case ExitEnd(c) => ExitEndAgrees(s, t, c);
    case WaitReap(c) => WaitReapAgrees(s, t, c);
    case _ => QuietAgrees(s, t, l);
  }

  lemma {:induction false} RunAgrees(r: seq<State>, ls: seq<Label>, i: nat)
    requires IsRun(r, ls) && i < |r|
    ensures Agrees(r[i], ToldAt(r[0].init, ls, i))
  {
    if i > 0 {
      RunAgrees(r, ls, i - 1);
      RunKeeps(r, ls, i - 1);
      StepAgrees(r[i - 1], ToldAt(r[0].init, ls, i - 1), ls[i - 1]);
    }
  }

  // ----- what it means -----------------------------------------------------

  /** In every state of every run a process whose fork is complete is the child of the one
      that called fork until that one's exit comes past its slot, and of init from then on. */
  lemma ParentIsMaker(r: seq<State>, ls: seq<Label>, i: nat, q: nat)
    requires IsRun(r, ls) && i < |r| && q < |r[i].procs| && Forked(r[i], q)
    ensures
      var t, x, parent := ToldAt(r[0].init, ls, i), r[i].procs[q].serial, r[i].procs[q].parent;
      && q in t.name && t.name[q] == x && x in t.maker && parent.Some? && parent.value < |r[i].procs|
      && r[i].procs[parent.value].serial == (if Passed(t, x, q) then 1 else t.maker[x])
      && (parent == Some(r[i].init) <==> Passed(t, x, q) || t.maker[x] == 1)
  {
    RunAgrees(r, ls, i);
    RunKeeps(r, ls, i);
    assert SlotOk(r[i], ToldAt(r[0].init, ls, i), q) && FamilyOk(r[i], q);
    SamePerson(r[i], r[i].init, r[i].procs[q].parent.value);
  }

  /** wait returns a process that its caller forked or, to init, one that an exit passed on. */
  lemma ReapedIsOwn(r: seq<State>, ls: seq<Label>, i: nat, c: nat)
    requires IsRun(r, ls) && i < |ls| && ls[i] == WaitReap(c)
    ensures |r[i + 1].reaped| == |r[i].reaped| + 1 && r[i + 1].reaped[..|r[i].reaped|] == r[i].reaped
    ensures
      var t, x := ToldAt(r[0].init, ls, i), r[i + 1].reaped[|r[i].reaped|];
      && x in t.maker && x !in r[i].reaped
      && (Caller(t, c) == Some(t.maker[x]) || (Caller(t, c) == Some(1) && t.maker[x] in t.scan))
  {
    var s, t := r[i], ToldAt(r[0].init, ls, i);
    RunAgrees(r, ls, i);
    RunKeeps(r, ls, i);
    CallerIs(s, t, c);
    assert SlotOk(s, t, s.cpu[c].at.k) && PidOk(s, s.cpu[c].at.k);
  }

  /** Who has come back from sleep is on no channel. */
  lemma AwakeOffChannel(r: seq<State>, ls: seq<Label>, i: nat, c: nat, p: nat)
    requires IsRun(r, ls) && i < |r| && AtFree(r[i], c, p)
    ensures r[i].procs[p].chan == NoChan
  {
    RunAgrees(r, ls, i);
    assert PlaceOk(r[i], ToldAt(r[0].init, ls, i), c);
  }

  /** Who sleeps is on the channel it last asked for. */
  lemma SleepsOnAsked(r: seq<State>, ls: seq<Label>, i: nat, q: nat)
    requires IsRun(r, ls) && i < |r| && q < |r[i].procs| && r[i].procs[q].state == SLEEPING
    ensures
      var t := ToldAt(r[0].init, ls, i);
      q in t.asked && r[i].procs[q].chan == t.asked[q]
  {
    RunAgrees(r, ls, i);
    assert SlotOk(r[i], ToldAt(r[0].init, ls, i), q);
  }

  /** A step that may wake the sleeper in slot q: a wakeup on its channel, a kill, the exit of
      a child of its, or, for init, an exit that passes a zombie on. */
  predicate Rouses(s: State, l: Label, q: nat)
    requires q < |s.procs| && Enabled(s, l)
  {
    || l == Kill(q)
    || (l.Wakeup? && s.procs[q].chan == Other(l.n))
    || (l.ExitStart? && s.procs[q].chan == OfProc(q) && s.procs[s.cpu[l.c].p].parent == Some(q))
    || (l.ExitStep? && s.procs[q].chan == OfProc(q) && q == s.init && ZombieChild(s.procs, s.cpu[l.c].at.k, s.cpu[l.c].p))
  }

  /** Such a step makes a sleeper runnable, and any other leaves it asleep. */
  lemma WokenIff(s: State, l: Label, q: nat)
    requires Inv(s) && Enabled(s, l) && q < |s.procs| && s.procs[q].state == SLEEPING
    ensures q < |Apply(s, l).procs|
    ensures Apply(s, l).procs[q].state == if Rouses(s, l, q) then RUNNABLE else SLEEPING
  {
    if l.ExitStart? || l.ExitStep? || l.Wakeup? || l.Kill? {
      RousedIff(s, l, q);
    } else {
      if l.ForkFail? || l.ForkLink? || l.ForkDone? {
        assert ForkOk(s, s.cpu[l.c].p);
      }
      if l.Yield? || l.Sleep? || l.Arrive? || l.WaitSleep? || l.ExitEnd? {
        assert CpuOk(s, l.c);
      }
    }
  }

  lemma RousedIff(s: State, l: Label, q: nat)
    requires Inv(s) && Enabled(s, l) && q < |s.procs| && s.procs[q].state == SLEEPING
    requires l.ExitStart? || l.ExitStep? || l.Wakeup? || l.Kill?
    ensures q < |Apply(s, l).procs|
    ensures Apply(s, l).procs[q].state == if Rouses(s, l, q) then RUNNABLE else SLEEPING
  {
  }

  // ----- children ----------------------------------------------------------

  ghost predicate HasChild(procs: seq<Proc>, p: nat, k: nat) {
    exists q :: 0 <= q < k && q < |procs| && procs[q].parent == Some(p)
  }

  /** Where wait is, it has seen a child if there is one so far. */
  ghost predicate KidsOk(s: State, c: nat)
    requires c < |s.cpu|
  {
    s.cpu[c].Run? && s.cpu[c].at.WaitScan? ==> (s.cpu[c].at.kids <==> HasChild(s.procs, s.cpu[c].p, s.cpu[c].at.k))
  }

  lemma SameChildren(procs: seq<Proc>, procs': seq<Proc>, p: nat, k: nat)
    requires |procs'| == |procs|
    requires forall q :: 0 <= q < |procs| ==> (procs'[q].parent == Some(p) <==> procs[q].parent == Some(p))
    ensures HasChild(procs', p, k) <==> HasChild(procs, p, k)
  {
    if HasChild(procs, p, k) {
      var q :| 0 <= q < k && q < |procs| && procs[q].parent == Some(p);
      assert procs'[q].parent == Some(p);
    }
    if HasChild(procs', p, k) {
      var q :| 0 <= q < k && q < |procs'| && procs'[q].parent == Some(p);
      assert procs[q].parent == Some(p);
    }
  }

  /** A step of another processor changes no child of a process in wait. */
  lemma OthersChildren(s: State, l: Label, c: nat)
    requires Inv(s) && Enabled(s, l) && AtWait(s, c) && c < |Apply(s, l).cpu| && Apply(s, l).cpu[c] == s.cpu[c]
    ensures
      var procs' := Apply(s, l).procs;
      |procs'| == |s.procs| && forall q :: 0 <= q < |s.procs| ==>
        (procs'[q].parent == Some(s.cpu[c].p) <==> s.procs[q].parent == Some(s.cpu[c].p))
  {
    assert HasLock(s.cpu[c]) <==> s.lock == Some(c);
    if l.ForkLink? {
      assert CpuOk(s, c) && CpuOk(s, l.c) && ForkOk(s, s.cpu[l.c].p);
      assert OnPgdir(s.cpu[c], s.cpu[c].p) && OnPgdir(s.cpu[l.c], s.cpu[l.c].p);
    }
  }

  lemma SeenOneMore(procs: seq<Proc>, p: nat, k: nat)
    requires k < |procs|
    ensures HasChild(procs, p, k + 1) <==> HasChild(procs, p, k) || procs[k].parent == Some(p)
  {
    if HasChild(procs, p, k) {
      var q :| 0 <= q < k && q < |procs| && procs[q].parent == Some(p);
      assert q < k + 1;
    }
  }

  lemma StepKids(s: State, l: Label, c: nat)
    requires Inv(s) && Enabled(s, l) && c < |s.cpu| && KidsOk(s, c)
    ensures c < |Apply(s, l).cpu| && KidsOk(Apply(s, l), c)
  {
    var s' := Apply(s, l);
    if s'.cpu[c] == s.cpu[c] && s.cpu[c].Run? && s.cpu[c].at.WaitScan? {
      assert CpuOk(s, c);
      OthersChildren(s, l, c);
      SameChildren(s.procs, s'.procs, s.cpu[c].p, s.cpu[c].at.k);
    } else if l == WaitStep(c) {
      SeenOneMore(s.procs, s.cpu[c].p, s.cpu[c].at.k);
    }
  }

  lemma {:induction false} RunKids(r: seq<State>, ls: seq<Label>, i: nat, c: nat)
    requires IsRun(r, ls) && i < |r| && c < |r[0].cpu|
    ensures c < |r[i].cpu| && KidsOk(r[i], c)
  {
    if i > 0 {
      RunKids(r, ls, i - 1, c);
      RunKeeps(r, ls, i - 1);
      StepKids(r[i - 1], ls[i - 1], c);
    }
  }

  /** wait, at the end of the table, may go to sleep if and only if its caller has a child. */
  lemma WaitSleepsIff(r: seq<State>, ls: seq<Label>, i: nat, c: nat)
    requires IsRun(r, ls) && i < |r| && c < |r[0].cpu| && c < |r[i].cpu| && AtWait(r[i], c) && r[i].cpu[c].at.k >= |r[i].procs|
    ensures CanWaitSleep(r[i], c) <==> exists q :: 0 <= q < |r[i].procs| && r[i].procs[q].parent == Some(r[i].cpu[c].p)
  {
    RunKids(r, ls, i, c);
  }
}
