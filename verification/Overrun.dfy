/**
 A log area that is too small (log.c): a run that loses a home block.  With a header and one
 slot, two calls pass log_write's guard before either appends; the commit then writes its
 second block past the area, to a home block that no call has written.
 */
module Overrun {
  import opened Common
  import opened Storage
  import Log

  /** Blocks 0, 1 and 4 are home blocks, 2 is the header and 3 the slot. */
  const Y := Layout(5, 2, 2)

  // ----- runs -------------------------------------------------------------

  ghost predicate Keeps(tr: seq<Abs>, x: Block) {
    |tr| > 0 && forall j :: 0 <= j < |tr| ==> 4 in tr[j].cur && tr[j].cur[4] == x
  }

  /** The run ls leads to s, and the plain map has had x in block 4 throughout. */
  ghost predicate Runs(s0: State, a0: Abs, ls: seq<Label>, s: State, x: Block) {
    CanRun(Y, s0, ls) && After(Y, s0, ls) == s && Keeps(AbsTrace(Y, s0, a0, ls), x)
  }

  predicate Spares(s: State, l: Label) {
    !l.Crash? && (l.LogWrite? ==> l.i < |s.bufs| && s.bufs[l.i].blockno != 4)
  }

  /** One step more. */
  lemma {:induction false} Longer(s0: State, a0: Abs, ls: seq<Label>, l: Label)
    requires CanRun(Y, s0, ls) && Enabled(Y, After(Y, s0, ls), l)
    ensures CanRun(Y, s0, ls + [l]) && After(Y, s0, ls + [l]) == Apply(Y, After(Y, s0, ls), l)
    ensures
      var tr := AbsTrace(Y, s0, a0, ls);
      |tr| > 0 && AbsTrace(Y, s0, a0, ls + [l]) == tr + [AbsNext(After(Y, s0, ls), tr[|tr| - 1], l)]
    decreases |ls|
  {
    if ls == [] {
      assert ls + [l] == [l] && [l][1..] == [];
    } else {
      Longer(Apply(Y, s0, ls[0]), AbsNext(s0, a0, ls[0]), ls[1..], l);
      assert (ls + [l])[1..] == ls[1..] + [l] && (ls + [l])[0] == ls[0];
    }
  }

  lemma Snoc(s0: State, a0: Abs, ls: seq<Label>, s: State, x: Block, l: Label)
    requires Runs(s0, a0, ls, s, x) && Enabled(Y, s, l) && Spares(s, l)
    ensures Runs(s0, a0, ls + [l], Apply(Y, s, l), x)
  {
    Longer(s0, a0, ls, l);
  }

  // ----- buffers ----------------------------------------------------------

  function Held(p: Pid, b: nat, dirty: bool, data: Block): Buf {
    Buf(1, b, true, dirty, multiset{p}, Some(p), false, data)
  }

  function Free(b: nat, dirty: bool, data: Block): Buf {
    Buf(1, b, true, dirty, multiset{}, None, false, data)
  }

  /** A cache in which only the first buffers have been used. */
  function Cache(k: seq<Buf>): seq<Buf> {
    seq(NBUF, (i: nat) => if i < |k| then k[i] else EmptyBuf)
  }

  lemma CacheSet(k: seq<Buf>, i: nat, b: Buf)
    requires i < |k| < NBUF
    ensures Cache(k)[i] == k[i] && Cache(k)[i := b] == Cache(k[i := b])
  {
  }

  lemma CacheAdd(k: seq<Buf>, b: Buf)
    requires |k| < NBUF
    ensures Cache(k)[|k|] == EmptyBuf && Cache(k)[|k| := b] == Cache(k + [b])
  {
  }

  /** bread of a block that is not cached. */
  lemma Bread(s0: State, a0: Abs, ls: seq<Label>, s: State, x: Block, k: seq<Buf>, p: Pid, b: nat)
    returns (ls': seq<Label>)
    requires Runs(s0, a0, ls, s, x) && s.bufs == Cache(k) && |k| < NBUF && |s.disk| == 5 && b < 5 && MayRead(Y, s, p, b)
    requires forall i :: 0 <= i < |k| ==> k[i].blockno != b
    ensures Runs(s0, a0, ls', s.(bufs := Cache(k + [Held(p, b, false, s.disk[b])])), x)
  {
    var i := |k|;
    CacheAdd(k, EmptyBuf);
    Snoc(s0, a0, ls, s, x, Recycle(p, i, b));
    var s1 := Apply(Y, s, Recycle(p, i, b));
    Snoc(s0, a0, ls + [Recycle(p, i, b)], s1, x, Lock(p, i));
    var s2 := Apply(Y, s1, Lock(p, i));
    Snoc(s0, a0, ls + [Recycle(p, i, b)] + [Lock(p, i)], s2, x, Fill(p, i));
    ls' := ls + [Recycle(p, i, b)] + [Lock(p, i)] + [Fill(p, i)];
    CacheAdd(k, Held(p, b, false, s.disk[b]));
    assert Apply(Y, s2, Fill(p, i)).bufs == Cache(k)[i := Held(p, b, false, s.disk[b])];
  }

  /** And of one that is. */
  lemma Again(s0: State, a0: Abs, ls: seq<Label>, s: State, x: Block, k: seq<Buf>, p: Pid, i: nat)
    returns (ls': seq<Label>)
    requires Runs(s0, a0, ls, s, x) && s.bufs == Cache(k) && i < |k| < NBUF
    requires k[i] == Free(k[i].blockno, k[i].dirty, k[i].data) && MayRead(Y, s, p, k[i].blockno)
    ensures Runs(s0, a0, ls', s.(bufs := Cache(k[i := Held(p, k[i].blockno, k[i].dirty, k[i].data)])), x)
  {
    CacheSet(k, i, Held(p, k[i].blockno, k[i].dirty, k[i].data));
    assert multiset{} + multiset{p} == multiset{p};
    Snoc(s0, a0, ls, s, x, Hit(p, i, k[i].blockno));
    var s1 := Apply(Y, s, Hit(p, i, k[i].blockno));
    Snoc(s0, a0, ls + [Hit(p, i, k[i].blockno)], s1, x, Lock(p, i));
    ls' := ls + [Hit(p, i, k[i].blockno)] + [Lock(p, i)];
    assert Apply(Y, s1, Lock(p, i)).bufs == Cache(k)[i := Held(p, k[i].blockno, k[i].dirty, k[i].data)];
  }

  /** brelse */
  lemma Brelse(s0: State, a0: Abs, ls: seq<Label>, s: State, x: Block, k: seq<Buf>, p: Pid, i: nat)
    returns (ls': seq<Label>)
    requires Runs(s0, a0, ls, s, x) && s.bufs == Cache(k) && i < |k| < NBUF
    requires k[i] == Held(p, k[i].blockno, k[i].dirty, k[i].data)
    ensures Runs(s0, a0, ls', s.(bufs := Cache(k[i := Free(k[i].blockno, k[i].dirty, k[i].data)])), x)
  {
    CacheSet(k, i, Free(k[i].blockno, k[i].dirty, k[i].data));
    Snoc(s0, a0, ls, s, x, Unlock(p, i));
    var s1 := Apply(Y, s, Unlock(p, i));
    Snoc(s0, a0, ls + [Unlock(p, i)], s1, x, Drop(p, i));
    ls' := ls + [Unlock(p, i)] + [Drop(p, i)];
    assert multiset{p} - multiset{p} == multiset{};
    assert Apply(Y, s1, Drop(p, i)).bufs == Cache(k)[i := Free(k[i].blockno, k[i].dirty, k[i].data)];
  }

  /** bread of two, by the committing process. */
  lemma BothAgain(s0: State, a0: Abs, ls: seq<Label>, s: State, x: Block, k: seq<Buf>, i: nat, j: nat) returns (ls': seq<Label>)
    requires Runs(s0, a0, ls, s, x) && s.bufs == Cache(k) && i < |k| < NBUF && j < |k| && i != j
    requires s.worker == 0 && s.log.committing && k[i].blockno < 5 && k[j].blockno < 5
    requires k[i] == Free(k[i].blockno, k[i].dirty, k[i].data) && k[j] == Free(k[j].blockno, k[j].dirty, k[j].data)
    ensures
      var k' := k[i := Held(0, k[i].blockno, k[i].dirty, k[i].data)][j := Held(0, k[j].blockno, k[j].dirty, k[j].data)];
      Runs(s0, a0, ls', s.(bufs := Cache(k')), x)
  {
    ls' := Again(s0, a0, ls, s, x, k, 0, i);
    var k1 := k[i := Held(0, k[i].blockno, k[i].dirty, k[i].data)];
    ls' := Again(s0, a0, ls', s.(bufs := Cache(k1)), x, k1, 0, j);
  }

  /** brelse of two. */
  lemma BothDone(s0: State, a0: Abs, ls: seq<Label>, s: State, x: Block, k: seq<Buf>, i: nat, j: nat) returns (ls': seq<Label>)
    requires Runs(s0, a0, ls, s, x) && s.bufs == Cache(k) && i < |k| < NBUF && j < |k| && i != j
    requires k[i] == Held(0, k[i].blockno, k[i].dirty, k[i].data) && k[j] == Held(0, k[j].blockno, k[j].dirty, k[j].data)
    ensures
      var k' := k[i := Free(k[i].blockno, k[i].dirty, k[i].data)][j := Free(k[j].blockno, k[j].dirty, k[j].data)];
      Runs(s0, a0, ls', s.(bufs := Cache(k')), x)
  {
    ls' := Brelse(s0, a0, ls, s, x, k, 0, i);
    var k1 := k[i := Free(k[i].blockno, k[i].dirty, k[i].data)];
    ls' := Brelse(s0, a0, ls', s.(bufs := Cache(k1)), x, k1, 0, j);
  }

  // ----- the run ----------------------------------------------------------

  /** Recovery, with nothing to install. */
  lemma BootUp(disk: seq<Block>, a0: Abs, x: Block) returns (ls: seq<Label>)
    requires |disk| == 5 && HeadOk(disk[2]) && Head(disk[2]) == [] && Runs(Boot(disk, 0), a0, [], Boot(disk, 0), x)
    ensures
      var h := PutHead(disk[2], []);
      Runs(Boot(disk, 0), a0, ls, State(disk[2 := h], Cache([Free(2, false, h)]), Log.Empty, Idle, false, 0), x)
  {
    var s0, h, h1 := Boot(disk, 0), disk[2], PutHead(disk[2], []);
    assert s0.bufs == Cache([]);
    ls := Bread(s0, a0, [], s0, x, [], 0, 2);
    var k := [Held(0, 2, false, h)];
    assert [] + k == k;
    var s := State(disk, Cache(k), Log.Empty, Booting, true, 0);
    Snoc(s0, a0, ls, s, x, ReadHead(0));
    ls := ls + [ReadHead(0)];
    s := s.(phase := Installing(0));
    ls := Brelse(s0, a0, ls, s, x, k, 0, 0);
    k := [Free(2, false, h)];
    assert [Held(0, 2, false, h)][0 := Free(2, false, h)] == k;
    s := s.(bufs := Cache(k));
    Snoc(s0, a0, ls, s, x, DropHeader);
    ls := ls + [DropHeader];
    s := s.(phase := Clearing);
    ls := Clear(s0, a0, ls, s, x, k, true);
    assert k[0 := Free(2, false, h1)] == [Free(2, false, h1)];
  }

  /** The header is written with no block in it. */
  lemma Clear(s0: State, a0: Abs, ls: seq<Label>, s: State, x: Block, k: seq<Buf>, booting: bool) returns (ls': seq<Label>)
    requires Runs(s0, a0, ls, s, x) && s.bufs == Cache(k) && 0 < |k| < NBUF && |s.disk| == 5 && s.phase == Clearing
    requires k[0] == Free(2, false, k[0].data) && s.worker == 0 && s.booting == booting && (booting || s.log.committing)
    ensures
      var h := PutHead(k[0].data, []);
      Runs(s0, a0, ls', s.(disk := s.disk[2 := h], bufs := Cache(k[0 := Free(2, false, h)]),
                           phase := if booting then Idle else Closing, booting := false), x)
  {
    var h := PutHead(k[0].data, []);
    ls' := Again(s0, a0, ls, s, x, k, 0, 0);
    var k1 := k[0 := Held(0, 2, false, k[0].data)];
    var s1 := s.(bufs := Cache(k1));
    Snoc(s0, a0, ls', s1, x, ClearHead(0));
    ls' := ls' + [ClearHead(0)];
    var k2 := k1[0 := Held(0, 2, false, h)];
    CacheSet(k1, 0, Held(0, 2, false, h));
    var s2 := Apply(Y, s1, ClearHead(0));
    assert s2.bufs == Cache(k2);
    ls' := Brelse(s0, a0, ls', s2, x, k2, 0, 0);
    assert k2[0 := Free(2, false, h)] == k[0 := Free(2, false, h)];
  }

  function Opened(n: nat): Log.State {
    if n == 0 then Log.Empty else if n == 1 then Log.State([], 1, false, map[0 := {}], {})
    else Log.State([], 2, false, map[0 := {}, 1 := {}], {})
  }

  /** Two calls begin and read their blocks. */
  lemma Calls(s0: State, a0: Abs, ls: seq<Label>, s: State, x: Block, k: seq<Buf>) returns (ls': seq<Label>)
    requires Runs(s0, a0, ls, s, x) && s.bufs == Cache(k) && |k| == 1 && k[0].blockno == 2 && |s.disk| == 5
    requires s.log == Log.Empty && s.phase == Idle && !s.booting
    ensures Runs(s0, a0, ls', s.(log := Opened(2),
                                 bufs := Cache(k + [Held(0, 0, false, s.disk[0])] + [Held(1, 1, false, s.disk[1])])), x)
  {
    Snoc(s0, a0, ls, s, x, BeginOp(0));
    var s1 := s.(log := Opened(1));
    assert Apply(Y, s, BeginOp(0)) == s1;
    Snoc(s0, a0, ls + [BeginOp(0)], s1, x, BeginOp(1));
    var s2 := s.(log := Opened(2));
    assert Apply(Y, s1, BeginOp(1)).log.ops == map[0 := {}, 1 := {}];
    assert Apply(Y, s1, BeginOp(1)) == s2;
    ls' := ls + [BeginOp(0)] + [BeginOp(1)];
    ls' := Bread(s0, a0, ls', s2, x, k, 0, 0);
    var k1 := k + [Held(0, 0, false, s.disk[0])];
    ls' := Bread(s0, a0, ls', s2.(bufs := Cache(k1)), x, k1, 1, 1);
  }

  const Logged := Log.State([0, 1], 2, false, map[0 := {0}, 1 := {1}], {})

  /** Both change theirs and pass the guard before either appends. */
  lemma Race(s0: State, a0: Abs, ls: seq<Label>, s: State, x: Block, b: Buf, u: Block, v: Block, c: Block, d: Block)
    returns (ls': seq<Label>)
    requires Runs(s0, a0, ls, s, x) && s.log == Opened(2) && s.phase == Idle && !s.booting
    requires s.bufs == Cache([b, Held(0, 0, false, c), Held(1, 1, false, d)])
    ensures Runs(s0, a0, ls', s.(log := Logged, bufs := Cache([b, Held(0, 0, true, u), Held(1, 1, true, v)])), x)
  {
    var k := [b, Held(0, 0, false, c), Held(1, 1, false, d)];
    var k' := [b, Changed(0, u), Changed(1, v)];
    Snoc(s0, a0, ls, s, x, Touch(0, 1, u));
    var s1 := Apply(Y, s, Touch(0, 1, u));
    Snoc(s0, a0, ls + [Touch(0, 1, u)], s1, x, Touch(1, 2, v));
    var s2 := s.(bufs := Cache(k'));
    assert Apply(Y, s1, Touch(1, 2, v)).bufs == Cache(k');
    ls' := ls + [Touch(0, 1, u)] + [Touch(1, 2, v)];
    Snoc(s0, a0, ls', s2, x, Guard(0));
    var s3 := s2.(log := Opened(2).(guarded := {0}));
    Snoc(s0, a0, ls' + [Guard(0)], s3, x, Guard(1));
    var s4 := s2.(log := Opened(2).(guarded := {0, 1}));
    assert Apply(Y, s3, Guard(1)) == s4;
    ls' := ls' + [Guard(0)] + [Guard(1)];
    FirstLog(s0, a0, ls', s4, x, b, u, v);
    ls' := ls' + [LogWrite(0, 1)];
    SecondLog(s0, a0, ls', s.(log := Half, bufs := Cache([b, Held(0, 0, true, u), Changed(1, v)])), x, b, u, v);
    ls' := ls' + [LogWrite(1, 2)];
  }

  /** The changed buffer of a call. */
  function Changed(p: Pid, data: Block): Buf {
    Held(p, p, false, data).(touched := true)
  }

  const Half := Log.State([0], 2, false, map[0 := {0}, 1 := {}], {1})

  lemma FirstLog(s0: State, a0: Abs, ls: seq<Label>, s: State, x: Block, b: Buf, u: Block, v: Block)
    requires Runs(s0, a0, ls, s, x) && s.log == Opened(2).(guarded := {0, 1})
    requires s.bufs == Cache([b, Changed(0, u), Changed(1, v)])
    ensures Runs(s0, a0, ls + [LogWrite(0, 1)], s.(log := Half, bufs := Cache([b, Held(0, 0, true, u), Changed(1, v)])), x)
  {
    Snoc(s0, a0, ls, s, x, LogWrite(0, 1));
    var s1 := Apply(Y, s, LogWrite(0, 1));
    assert s1.log.ops == Half.ops;
    assert s1.bufs == Cache([b, Held(0, 0, true, u), Changed(1, v)]);
  }

  lemma SecondLog(s0: State, a0: Abs, ls: seq<Label>, s: State, x: Block, b: Buf, u: Block, v: Block)
    requires Runs(s0, a0, ls, s, x) && s.log == Half && s.bufs == Cache([b, Held(0, 0, true, u), Changed(1, v)])
    ensures Runs(s0, a0, ls + [LogWrite(1, 2)],
                 s.(log := Logged, bufs := Cache([b, Held(0, 0, true, u), Held(1, 1, true, v)])), x)
  {
    Snoc(s0, a0, ls, s, x, LogWrite(1, 2));
    var s1 := Apply(Y, s, LogWrite(1, 2));
    assert s1.log.ops == Logged.ops;
    assert s1.bufs == Cache([b, Held(0, 0, true, u), Held(1, 1, true, v)]);
  }

  const Committing := Log.State([0, 1], 0, true, map[], {})

  /** Both are done with their buffers and end; the commit starts. */
  lemma Ends(s0: State, a0: Abs, ls: seq<Label>, s: State, x: Block, b: Buf, u: Block, v: Block) returns (ls': seq<Label>)
    requires Runs(s0, a0, ls, s, x) && s.log == Logged && b == Free(2, false, b.data)
    requires s.bufs == Cache([b, Held(0, 0, true, u), Held(1, 1, true, v)])
    ensures Runs(s0, a0, ls', s.(log := Committing, bufs := Cache([b, Free(0, true, u), Free(1, true, v)]),
                                 phase := Logging(0), worker := 0), x)
  {
    var k := [b, Held(0, 0, true, u), Held(1, 1, true, v)];
    ls' := Brelse(s0, a0, ls, s, x, k, 0, 1);
    var k1 := [b, Free(0, true, u), Held(1, 1, true, v)];
    assert k[1 := Free(0, true, u)] == k1;
    ls' := Brelse(s0, a0, ls', s.(bufs := Cache(k1)), x, k1, 1, 2);
    var k2 := [b, Free(0, true, u), Free(1, true, v)];
    assert k1[2 := Free(1, true, v)] == k2;
    var s1 := s.(bufs := Cache(k2));
    assert forall i :: 0 <= i < |s1.bufs| ==> !s1.bufs[i].touched;
    Snoc(s0, a0, ls', s1, x, EndOp(1));
    var s2 := s1.(log := Log.State([0, 1], 1, false, map[0 := {0}], {}));
    assert Logged.ops - {1} == map[0 := {0}];
    assert Apply(Y, s1, EndOp(1)) == s2;
    Snoc(s0, a0, ls' + [EndOp(1)], s2, x, EndOp(0));
    assert map[0 := {0}] - {0} == map[];
    ls' := ls' + [EndOp(1)] + [EndOp(0)];
  }

  /** The buffers of block 3 + t and block t. */
  lemma ReadTwo(s0: State, a0: Abs, ls: seq<Label>, s: State, x: Block, k: seq<Buf>, t: nat) returns (ls': seq<Label>)
    requires Runs(s0, a0, ls, s, x) && s.log == Committing && s.worker == 0 && !s.booting && t < 2
    requires |s.disk| == 5 && |k| == 3 + t && s.bufs == Cache(k) && k[1 + t] == Free(t, true, k[1 + t].data)
    requires forall i :: 0 <= i < |k| ==> k[i].blockno != 3 + t
    ensures
      var k' := (k + [Held(0, 3 + t, false, s.disk[3 + t])])[1 + t := Held(0, t, true, k[1 + t].data)];
      Runs(s0, a0, ls', s.(bufs := Cache(k')), x)
  {
    ls' := Bread(s0, a0, ls, s, x, k, 0, 3 + t);
    var k1 := k + [Held(0, 3 + t, false, s.disk[3 + t])];
    ls' := Again(s0, a0, ls', s.(bufs := Cache(k1)), x, k1, 0, 1 + t);
  }

  /** write_log for block t, which the log has in place t: to block 3 + t. */
  lemma CopyBlock(s0: State, a0: Abs, ls: seq<Label>, s: State, x: Block, k: seq<Buf>, t: nat) returns (ls': seq<Label>)
    requires Runs(s0, a0, ls, s, x) && s.log == Committing && s.phase == Logging(t) && s.worker == 0 && !s.booting && t < 2
    requires |s.disk| == 5 && |k| == 3 + t && s.bufs == Cache(k) && k[1 + t] == Free(t, true, k[1 + t].data)
    requires forall i :: 0 <= i < |k| ==> k[i].blockno != 3 + t
    ensures Runs(s0, a0, ls', s.(disk := s.disk[3 + t := k[1 + t].data], phase := Logging(t + 1),
                                 bufs := Cache(k + [Free(3 + t, false, k[1 + t].data)])), x)
  {
    var to, from, u := 3 + t, 1 + t, k[1 + t].data;
    ls' := ReadTwo(s0, a0, ls, s, x, k, t);
    var k2 := (k + [Held(0, to, false, s.disk[to])])[from := Held(0, t, true, u)];
    var s2 := s.(bufs := Cache(k2));
    Snoc(s0, a0, ls', s2, x, CopyToLog(to, from));
    var s3 := Apply(Y, s2, CopyToLog(to, from));
    var k3 := k2[to := Held(0, to, false, u)];
    CacheSet(k2, to, Held(0, to, false, u));
    assert s3.bufs == Cache(k3);
    ls' := BothDone(s0, a0, ls' + [CopyToLog(to, from)], s3, x, k3, to, from);
    assert k3[to := Free(to, false, u)][from := Free(t, true, u)] == k + [Free(to, false, u)];
  }

  /** The header. */
  lemma HeadRun(s0: State, a0: Abs, ls: seq<Label>, s: State, x: Block, k: seq<Buf>) returns (ls': seq<Label>)
    requires Runs(s0, a0, ls, s, x) && s.log == Committing && s.phase == Logging(2) && s.worker == 0 && !s.booting
    requires |s.disk| == 5 && 0 < |k| < NBUF && s.bufs == Cache(k) && k[0] == Free(2, false, k[0].data)
    ensures
      var h := PutHead(k[0].data, [0, 1]);
      Runs(s0, a0, ls', s.(disk := s.disk[2 := h], phase := Installing(0), bufs := Cache(k[0 := Free(2, false, h)])), x)
  {
    var h := PutHead(k[0].data, [0, 1]);
    Snoc(s0, a0, ls, s, x, EndLogging);
    var s1 := s.(phase := Heading);
    ls' := Again(s0, a0, ls + [EndLogging], s1, x, k, 0, 0);
    var k1 := k[0 := Held(0, 2, false, k[0].data)];
    var s2 := s1.(bufs := Cache(k1));
    Snoc(s0, a0, ls', s2, x, WriteHead(0));
    var s3 := Apply(Y, s2, WriteHead(0));
    var k2 := k1[0 := Held(0, 2, false, h)];
    CacheSet(k1, 0, Held(0, 2, false, h));
    assert s3.bufs == Cache(k2);
    ls' := Brelse(s0, a0, ls' + [WriteHead(0)], s3, x, k2, 0, 0);
    assert k2[0 := Free(2, false, h)] == k[0 := Free(2, false, h)];
  }

  /** install_trans for block t, from block 3 + t. */
  lemma InstallBlock(s0: State, a0: Abs, ls: seq<Label>, s: State, x: Block, k: seq<Buf>, t: nat) returns (ls': seq<Label>)
    requires Runs(s0, a0, ls, s, x) && s.log == Committing && s.phase == Installing(t) && s.worker == 0 && !s.booting && t < 2
    requires |s.disk| == 5 && |k| == 5 && s.bufs == Cache(k)
    requires k[1 + t] == Free(t, true, k[1 + t].data) && k[3 + t] == Free(3 + t, false, k[3 + t].data)
    ensures Runs(s0, a0, ls', s.(disk := s.disk[t := k[3 + t].data], phase := Installing(t + 1),
                                 bufs := Cache(k[1 + t := Free(t, false, k[3 + t].data)])), x)
  {
    var from, to, u := 3 + t, 1 + t, k[3 + t].data;
    ls' := BothAgain(s0, a0, ls, s, x, k, from, to);
    var k2 := k[from := Held(0, from, false, u)][to := Held(0, t, true, k[to].data)];
    var s2 := s.(bufs := Cache(k2));
    Snoc(s0, a0, ls', s2, x, InstallOne(from, to));
    var s3 := Apply(Y, s2, InstallOne(from, to));
    var k3 := k2[to := Held(0, t, false, u)];
    CacheSet(k2, to, Held(0, t, false, u));
    assert s3.bufs == Cache(k3);
    ls' := BothDone(s0, a0, ls' + [InstallOne(from, to)], s3, x, k3, from, to);
    assert k3[from := Free(from, false, u)][to := Free(t, false, u)] == k[to := Free(t, false, u)];
  }

  /** The commit up to its header write. */
  lemma CommitRun(s0: State, a0: Abs, ls: seq<Label>, s: State, x: Block, h: Block, u: Block, v: Block)
    returns (ls': seq<Label>)
    requires Runs(s0, a0, ls, s, x) && s.log == Committing && s.phase == Logging(0) && s.worker == 0 && !s.booting
    requires |s.disk| == 5 && s.bufs == Cache([Free(2, false, h), Free(0, true, u), Free(1, true, v)])
    ensures
      var h' := PutHead(h, [0, 1]);
      Runs(s0, a0, ls', s.(disk := s.disk[3 := u][4 := v][2 := h'], phase := Installing(0),
           bufs := Cache([Free(2, false, h'), Free(0, true, u), Free(1, true, v), Free(3, false, u), Free(4, false, v)])), x)
  {
    var k := [Free(2, false, h), Free(0, true, u), Free(1, true, v)];
    ls' := CopyBlock(s0, a0, ls, s, x, k, 0);
    var k1 := k + [Free(3, false, u)];
    var s1 := s.(disk := s.disk[3 := u], phase := Logging(1), bufs := Cache(k1));
    ls' := CopyBlock(s0, a0, ls', s1, x, k1, 1);
    var k2 := k1 + [Free(4, false, v)];
    var s2 := s1.(disk := s1.disk[4 := v], phase := Logging(2), bufs := Cache(k2));
    ls' := HeadRun(s0, a0, ls', s2, x, k2);
    var h' := PutHead(h, [0, 1]);
    assert k2[0 := Free(2, false, h')] ==
      [Free(2, false, h'), Free(0, true, u), Free(1, true, v), Free(3, false, u), Free(4, false, v)];
  }

  /** And from there to the end. */
  lemma InstallRun(s0: State, a0: Abs, ls: seq<Label>, s: State, x: Block, h: Block, u: Block, v: Block)
    returns (ls': seq<Label>, s': State)
    requires Runs(s0, a0, ls, s, x) && s.log == Committing && s.phase == Installing(0) && s.worker == 0 && !s.booting
    requires |s.disk| == 5
    requires s.bufs == Cache([Free(2, false, h), Free(0, true, u), Free(1, true, v), Free(3, false, u), Free(4, false, v)])
    ensures Runs(s0, a0, ls', s', x) && s'.phase == Idle && s'.log.lh == [] && |s'.disk| == 5
    ensures s'.disk[0] == u && s'.disk[1] == v && s'.disk[4] == s.disk[4]
  {
    var k := [Free(2, false, h), Free(0, true, u), Free(1, true, v), Free(3, false, u), Free(4, false, v)];
    ls' := InstallBlock(s0, a0, ls, s, x, k, 0);
    var k1 := k[1 := Free(0, false, u)];
    var s1 := s.(disk := s.disk[0 := u], phase := Installing(1), bufs := Cache(k1));
    ls' := InstallBlock(s0, a0, ls', s1, x, k1, 1);
    var k2 := k1[2 := Free(1, false, v)];
    var s2 := s1.(disk := s1.disk[1 := v], phase := Installing(2), bufs := Cache(k2));
    Snoc(s0, a0, ls', s2, x, DropHeader);
    var s3 := Apply(Y, s2, DropHeader);
    ls' := Clear(s0, a0, ls' + [DropHeader], s3, x, k2, false);
    var h' := PutHead(h, []);
    var s4 := s3.(disk := s3.disk[2 := h'], bufs := Cache(k2[0 := Free(2, false, h')]), phase := Closing, booting := false);
    Snoc(s0, a0, ls', s4, x, Close);
    ls', s' := ls' + [Close], Apply(Y, s4, Close);
  }

  /** A home block is lost.  On any disk with an empty log there is a run in which two calls
      write u and v to blocks 0 and 1 and the log is idle again; block 4, which the plain map
      holds unchanged at every moment, has become v. */
  lemma BlockLost(disk: seq<Block>, u: Block, v: Block) returns (ls: seq<Label>)
    requires |disk| == 5 && HeadOk(disk[2]) && Head(disk[2]) == [] && v != disk[4]
    ensures Bootable(Y, disk) && CanRun(Y, Boot(disk, 0), ls)
    ensures
      var s, a := After(Y, Boot(disk, 0), ls), Abs(Image(Y, disk), Image(Y, disk), {});
      && s.phase == Idle && s.log.lh == [] && |s.disk| == 5 && s.disk[4] == v
      && forall j :: 0 <= j < |AbsTrace(Y, Boot(disk, 0), a, ls)| ==> !Shows(Y, s.disk, AbsTrace(Y, Boot(disk, 0), a, ls)[j].cur)
  {
    var s0, a0, x := Boot(disk, 0), Abs(Image(Y, disk), Image(Y, disk), {}), disk[4];
    assert AbsTrace(Y, s0, a0, []) == [a0];
    ls := BootUp(disk, a0, x);
    var h := PutHead(disk[2], []);
    var b := Free(2, false, h);
    var s := State(disk[2 := h], Cache([b]), Log.Empty, Idle, false, 0);
    ls := Calls(s0, a0, ls, s, x, [b]);
    var k := [b, Held(0, 0, false, disk[0]), Held(1, 1, false, disk[1])];
    assert [b] + [Held(0, 0, false, disk[0])] + [Held(1, 1, false, disk[1])] == k;
    s := s.(log := Opened(2), bufs := Cache(k));
    ls := Race(s0, a0, ls, s, x, b, u, v, disk[0], disk[1]);
    s := s.(log := Logged, bufs := Cache([b, Held(0, 0, true, u), Held(1, 1, true, v)]));
    ls := Ends(s0, a0, ls, s, x, b, u, v);
    s := s.(log := Committing, bufs := Cache([b, Free(0, true, u), Free(1, true, v)]), phase := Logging(0), worker := 0);
    ls := CommitRun(s0, a0, ls, s, x, h, u, v);
    var h' := PutHead(h, [0, 1]);
    s := s.(disk := s.disk[3 := u][4 := v][2 := h'], phase := Installing(0),
            bufs := Cache([Free(2, false, h'), Free(0, true, u), Free(1, true, v), Free(3, false, u), Free(4, false, v)]));
    ls, s := InstallRun(s0, a0, ls, s, x, h', u, v);
  }
}
