/**
 Concurrent use of one client. Callers on the networking core take the context lock; callers on the
 other core hand a payload to the bridge, which runs it on the networking core under the same lock or
 fails without effect. Any number of callers interleave step by step.
 */
module SyncAccess {
  import opened Wrappers
  import opened Lwip
  import opened Lifecycle

  /** The client's state, and lwIP's state of each PCB. */
  datatype Obj = Obj(slice: Slice, states: seq<nat>)

  /** `Network` and `GivesUp` stand for lwIP's own work under the lock: a PCB changes state, or is given up. */
  datatype Op =
    | Status
    | Connecting(available: bool, answer: int)
    | Network(pcb: nat, state: nat)
    | GivesUp(pcb: nat)

  /** The PCB that the client's context holds, if any. */
  function Current(o: Obj): Option<nat> {
    if o.slice.ctx.Some? then o.slice.ctx.value.pcb else None
  }

  /** `_ts_status` */
  function StatusOf(o: Obj): nat {
    if Current(o).None? || Current(o).value >= |o.states| then CLOSED
    else
      var st := o.states[Current(o).value];
      if st == CLOSE_WAIT || st == CLOSING then CLOSED else st
  }

  /** The status shows the state of the PCB the client holds, where it is one that can be written to. */
  lemma StatusIs(o: Obj)
    ensures StatusOf(o) == CLOSED <==>
            o.slice.ctx.None? || o.slice.ctx.value.pcb.None? || o.slice.ctx.value.pcb.value >= |o.states|
            || o.states[o.slice.ctx.value.pcb.value] in {CLOSED, CLOSE_WAIT, CLOSING}
    ensures StatusOf(o) != CLOSED ==> StatusOf(o) == o.states[o.slice.ctx.value.pcb.value]
  {
  }

  /** The status is CLOSED from the start until the first successful connect, whatever else happens. */
  lemma ClosedFromStart(w: World, es: seq<Event>, c: nat, states: seq<nat>)
    requires Blank(w) && Wf(w) && NoSuccess(w, es, c)
    ensures StatusOf(Obj(SliceOf(Run(w, es), c), states)) == CLOSED
  {
    HoldsNothing(w, es, c);
  }

  /** ... and from every stop, shutdown or destruction of the client until its next successful connect. */
  lemma ClosedAfterEnd(w: World, e: Event, es: seq<Event>, c: nat, states: seq<nat>)
    requires Wf(w) && (e.StopE? || e.ShutdownE? || e.DestroyE?) && e.c == c
    ensures Wf(Lifecycle.Step(w, e))
    ensures NoSuccess(Lifecycle.Step(w, e), es, c) ==>
              StatusOf(Obj(SliceOf(Run(Lifecycle.Step(w, e), es), c), states)) == CLOSED
  {
    StepWf(w, e);
    StepHolds(w, e, c);
    if NoSuccess(Lifecycle.Step(w, e), es, c) { HoldsNothing(Lifecycle.Step(w, e), es, c); }
  }

  /** lwIP's states after a connect: a new PCB enters SYN_SENT if tcp_connect accepts it. */
  function StatesAfter(o: Obj, available: bool, answer: int): seq<nat> {
    if o.slice.ctx.Some? || !available then o.states
    else o.states + [if answer == ERR_OK then SYN_SENT else CLOSED]
  }

  /** lwIP gives a PCB up; whoever holds it keeps the pointer. */
  function Failing(s: Slice, pcb: nat): Slice
    requires pcb < |s.pcbs|
  {
    s.(pcbs := s.pcbs[pcb := s.pcbs[pcb].(freed := true)])
  }

  /** The direct call on the networking core. */
  function Direct(o: Obj, op: Op): (Obj, int) {
    match op
    case Status => (if SliceOk(o.slice) then o.(slice := Access(o.slice)) else o, StatusOf(o))
    case Connecting(available, answer) =>
      var (s, r) := Connect(o.slice, available, answer);
      (Obj(s, StatesAfter(o, available, answer)), r)
    case Network(pcb, state) =>
      (if pcb < |o.states| then o.(states := o.states[pcb := state]) else o, PICO_OK)
    case GivesUp(pcb) =>
      (if pcb < |o.slice.pcbs| then o.(slice := Failing(o.slice, pcb)) else o, PICO_OK)
  }

  // ---------------------------------------------------------------- the machine

  /** A call: its number, its path, and how many calls had taken effect when it was made. */
  datatype Call = Call(id: nat, cross: bool, op: Op, started: nat)

  /**
   Where a caller stands. `Loaded` has read the client's state and holds the lock; `Committed` has
   written it back as the call number `at` to take effect, and still holds the lock.
   */
  datatype Pc =
    | Waiting(call: Call)
    | Loaded(call: Call, copy: Obj)
    | Committed(call: Call, result: int, at: nat)
    | Done(call: Call, result: int, at: nat)
    | Refused(call: Call, result: int, err: int)

  datatype Entry = Entry(id: nat, op: Op, result: int)

  /** How a call ended: at its place in the log, or refused by the bridge with an error. */
  datatype Ending = TookEffect(at: nat) | BridgeFailed(err: int)

  datatype Returned = Returned(call: Call, result: int, ending: Ending, finished: nat)

  /** `log` lists the calls in the order in which they took effect. */
  datatype Sys = Sys(obj: Obj, lock: Option<nat>, threads: map<nat, Pc>, nextId: nat,
                     log: seq<Entry>, returned: seq<Returned>)

  datatype Step =
    | Invoke(t: nat, cross: bool, op: Op)
    | Acquire(t: nat)
    | Commit(t: nat)
    | Release(t: nat)
      /** The bridge cannot run the payload. */
    | Refuse(t: nat, err: int)
    | Return(t: nat)

  /** What a caller gets when the bridge fails: CLOSED for a status, the bridge's error for a connect. */
  function RefusedResult(op: Op, err: int): int {
    if op.Status? then CLOSED else err
  }

  predicate Enabled(s: Sys, e: Step) {
    match e
    case Invoke(t, cross, op) => t !in s.threads && (op.Network? || op.GivesUp? ==> !cross)
    case Acquire(t) => t in s.threads && s.threads[t].Waiting? && s.lock == None
    case Commit(t) => t in s.threads && s.threads[t].Loaded?
    case Release(t) => t in s.threads && s.threads[t].Committed?
    case Refuse(t, err) => t in s.threads && s.threads[t].Waiting? && s.threads[t].call.cross && err != PICO_OK
    case Return(t) => t in s.threads && (s.threads[t].Done? || s.threads[t].Refused?)
  }

  function Next(s: Sys, e: Step): Sys
    requires Enabled(s, e)
  {
    match e
    case Invoke(t, cross, op) =>
      s.(threads := s.threads[t := Waiting(Call(s.nextId, cross, op, |s.log|))], nextId := s.nextId + 1)
    case Acquire(t) =>
      s.(lock := Some(t), threads := s.threads[t := Loaded(s.threads[t].call, s.obj)])
    case Commit(t) =>
      var Loaded(call, copy) := s.threads[t];
      var (obj, r) := Direct(copy, call.op);
      s.(obj := obj, log := s.log + [Entry(call.id, call.op, r)],
         threads := s.threads[t := Committed(call, r, |s.log|)])
    case Release(t) =>
      var Committed(call, r, at) := s.threads[t];
      s.(lock := None, threads := s.threads[t := Done(call, r, at)])
    case Refuse(t, err) =>
      s.(threads := s.threads[t := Refused(s.threads[t].call, RefusedResult(s.threads[t].call.op, err), err)])
    case Return(t) =>
      var pc := s.threads[t];
      var ending := if pc.Done? then TookEffect(pc.at) else BridgeFailed(pc.err);
      s.(threads := s.threads - {t}, returned := s.returned + [Returned(pc.call, pc.result, ending, |s.log|)])
  }

  /** `s'` is reached from `s` by the steps `es`. */
  ghost predicate Reaches(s: Sys, es: seq<Step>, s': Sys)
    decreases |es|
  {
    if es == [] then s' == s else Enabled(s, es[0]) && Reaches(Next(s, es[0]), es[1..], s')
  }

  function Start(o: Obj): Sys {
    Sys(o, None, map[], 0, [], [])
  }

  // ---------------------------------------------------------------- the sequential reference

  /** The client after direct calls, one after the other, in the order of the log. */
  function Replay(o: Obj, log: seq<Entry>): Obj {
    if log == [] then o else Direct(Replay(o, log[..|log| - 1]), log[|log| - 1].op).0
  }

  /** Entry `i` got the result that the direct call gives at that place. */
  predicate Genuine(o: Obj, log: seq<Entry>, i: nat)
    requires i < |log|
  {
    log[i].result == Direct(Replay(o, log[..i]), log[i].op).1
  }

  // ---------------------------------------------------------------- the invariant

  predicate Holding(pc: Pc) {
    pc.Loaded? || pc.Committed?
  }

  /** A caller is consistent with the log. */
  predicate PcOk(s: Sys, t: nat, pc: Pc) {
    && pc.call.id < s.nextId && pc.call.started <= |s.log|
    && (Holding(pc) ==> s.lock == Some(t))
    && (pc.Loaded? ==> pc.copy == s.obj)
    && (pc.Committed? || pc.Done? ==>
          pc.call.started <= pc.at < |s.log| && s.log[pc.at] == Entry(pc.call.id, pc.call.op, pc.result))
    && (pc.Refused? ==> pc.call.cross && pc.err != PICO_OK && pc.result == RefusedResult(pc.call.op, pc.err))
    && (pc.Waiting? || pc.Loaded? || pc.Refused? ==> Absent(s.log, pc.call.id))
  }

  predicate Absent(log: seq<Entry>, id: nat) {
    forall i | 0 <= i < |log| :: log[i].id != id
  }

  /** A returned call took effect between its invocation and its return, or was refused without effect. */
  predicate ReturnedOk(s: Sys, r: Returned) {
    && r.finished <= |s.log| && r.call.id < s.nextId
    && (r.ending.TookEffect? ==>
          r.call.started <= r.ending.at < r.finished && s.log[r.ending.at] == Entry(r.call.id, r.call.op, r.result))
    && (r.ending.BridgeFailed? ==>
          && r.call.cross && Absent(s.log, r.call.id)
          && r.ending.err != PICO_OK && r.result == RefusedResult(r.call.op, r.ending.err))
  }

  ghost predicate ThreadsOk(s: Sys) {
    && (forall t | t in s.threads :: PcOk(s, t, s.threads[t]))
    && (forall t, u | t in s.threads && u in s.threads && t != u :: s.threads[t].call.id != s.threads[u].call.id)
  }

  ghost predicate LogOk(o: Obj, s: Sys) {
    && s.obj == Replay(o, s.log)
    && (forall i | 0 <= i < |s.log| :: Genuine(o, s.log, i) && s.log[i].id < s.nextId)
    && (forall i, j | 0 <= i < j < |s.log| :: s.log[i].id != s.log[j].id)
  }

  ghost predicate HistoryOk(s: Sys) {
    && (forall k | 0 <= k < |s.returned| :: ReturnedOk(s, s.returned[k]))
    && (forall k, t | 0 <= k < |s.returned| && t in s.threads :: s.returned[k].call.id != s.threads[t].call.id)
  }

  ghost predicate Inv(o: Obj, s: Sys) {
    ThreadsOk(s) && LogOk(o, s) && HistoryOk(s)
  }

  lemma NextPc(s: Sys, e: Step, u: nat)
    requires ThreadsOk(s) && Enabled(s, e) && u in Next(s, e).threads
    requires forall i | 0 <= i < |s.log| :: s.log[i].id < s.nextId
    ensures PcOk(Next(s, e), u, Next(s, e).threads[u])
  {
    hide Direct;
    if u in s.threads { assert PcOk(s, u, s.threads[u]); }
    assert e.t in s.threads ==> PcOk(s, e.t, s.threads[e.t]);
  }

  lemma NextThreads(o: Obj, s: Sys, e: Step)
    requires Inv(o, s) && Enabled(s, e)
    ensures ThreadsOk(Next(s, e))
  {
    hide Direct, Replay, Genuine;
    var s' := Next(s, e);
    forall u | u in s'.threads
      ensures PcOk(s', u, s'.threads[u])
    {
      NextPc(s, e, u);
    }
    assert e.t in s.threads ==> PcOk(s, e.t, s.threads[e.t]);
    assert forall t | t in s.threads :: PcOk(s, t, s.threads[t]);
  }

  lemma NextLog(o: Obj, s: Sys, e: Step)
    requires Inv(o, s) && Enabled(s, e)
    ensures LogOk(o, Next(s, e))
  {
    hide Direct, Replay, Genuine;
    if e.Commit? {
      var pc := s.threads[e.t];
      assert PcOk(s, e.t, pc);
      Extended(o, s.log, Entry(pc.call.id, pc.call.op, Direct(s.obj, pc.call.op).1));
    }
  }

  /** A direct call at the end of the log. */
  lemma Extended(o: Obj, log: seq<Entry>, e: Entry)
    requires (forall i | 0 <= i < |log| :: Genuine(o, log, i)) && e.result == Direct(Replay(o, log), e.op).1
    ensures Replay(o, log + [e]) == Direct(Replay(o, log), e.op).0
    ensures forall i | 0 <= i < |log + [e]| :: Genuine(o, log + [e], i)
  {
    hide Direct;
    assert (log + [e])[..|log|] == log;
    forall i | 0 <= i < |log + [e]|
      ensures Genuine(o, log + [e], i)
    {
      if i < |log| {
        assert Genuine(o, log, i) && (log + [e])[..i] == log[..i];
      }
    }
  }

  lemma NextHistory(o: Obj, s: Sys, e: Step)
    requires Inv(o, s) && Enabled(s, e)
    ensures HistoryOk(Next(s, e))
  {
    hide Direct, Replay, Genuine;
    var s' := Next(s, e);
    assert e.t in s.threads ==> PcOk(s, e.t, s.threads[e.t]);
    forall k | 0 <= k < |s'.returned|
      ensures ReturnedOk(s', s'.returned[k])
    {
      if k < |s.returned| { assert ReturnedOk(s, s.returned[k]); }
    }
  }

  lemma {:induction false} RunInv(o: Obj, s: Sys, es: seq<Step>, s': Sys)
    requires Inv(o, s) && Reaches(s, es, s')
    ensures Inv(o, s')
    decreases |es|
  {
    if es != [] {
      NextThreads(o, s, es[0]);
      NextLog(o, s, es[0]);
      NextHistory(o, s, es[0]);
      RunInv(o, Next(s, es[0]), es[1..], s');
    }
  }

  /**
   Linearizability: whatever the interleaving, the client's state is that of direct calls made one after
   the other in the order of the log; each call appears in the log at most once, with the result the
   direct call gives there; and each returned call took effect between its invocation and its return,
   or was refused by the bridge and never took effect.
   */
  lemma Linearizable(o: Obj, es: seq<Step>, s: Sys)
    requires Reaches(Start(o), es, s)
    ensures s.obj == Replay(o, s.log)
    ensures forall i | 0 <= i < |s.log| :: Genuine(o, s.log, i)
    ensures forall i, j | 0 <= i < j < |s.log| :: s.log[i].id != s.log[j].id
    ensures forall k | 0 <= k < |s.returned| :: ReturnedOk(s, s.returned[k])
    ensures forall r | r in s.returned && r.ending.BridgeFailed? ::
              && (r.call.op.Status? ==> r.result == CLOSED)
              && (r.call.op.Connecting? ==> r.result == r.ending.err && r.result != PICO_OK)
  {
    assert Inv(o, Start(o));
    RunInv(o, Start(o), es, s);
    assert forall r | r in s.returned :: ReturnedOk(s, r);
  }

  // ---------------------------------------------------------------- real time

  function Invokes(es: seq<Step>): nat {
    if es == [] then 0 else (if es[0].Invoke? then 1 else 0) + Invokes(es[1..])
  }

  function Returns(es: seq<Step>): nat {
    if es == [] then 0 else (if es[0].Return? then 1 else 0) + Returns(es[1..])
  }

  /** The log and the list of returned calls only grow; calls are numbered as made and listed as returned. */
  lemma {:induction false} RunGrows(s: Sys, es: seq<Step>, s': Sys)
    requires Reaches(s, es, s')
    ensures s.log <= s'.log && s.returned <= s'.returned
    ensures s'.nextId == s.nextId + Invokes(es) && |s'.returned| == |s.returned| + Returns(es)
    decreases |es|
  {
    hide Direct;
    if es != [] { RunGrows(Next(s, es[0]), es[1..], s'); }
  }

  /** A run passes through a state after its first `k` steps. */
  lemma {:induction false} RunThrough(s: Sys, es: seq<Step>, s': Sys, k: nat) returns (m: Sys)
    requires Reaches(s, es, s') && k <= |es|
    ensures Reaches(s, es[..k], m) && Reaches(m, es[k..], s')
    decreases k
  {
    hide Enabled, Next;
    if k == 0 {
      m := s;
      assert es[k..] == es;
    } else {
      m := RunThrough(Next(s, es[0]), es[1..], s', k - 1);
      assert es[..k][0] == es[0] && es[..k][1..] == es[1..][..k - 1] && es[k..] == es[1..][k - 1..];
    }
  }

  /** The call number `id` was made when `n` calls had taken effect. */
  ghost predicate MadeAt(s: Sys, id: nat, n: nat) {
    && id < s.nextId
    && (forall t | t in s.threads && s.threads[t].call.id == id :: s.threads[t].call.started == n)
    && (forall k | 0 <= k < |s.returned| && s.returned[k].call.id == id :: s.returned[k].call.started == n)
  }

  lemma {:induction false} MadeAtStays(s: Sys, es: seq<Step>, s': Sys, id: nat, n: nat)
    requires Reaches(s, es, s') && MadeAt(s, id, n)
    ensures MadeAt(s', id, n)
    decreases |es|
  {
    if es != [] {
      NextMadeAt(s, es[0], id, n);
      MadeAtStays(Next(s, es[0]), es[1..], s', id, n);
    }
  }

  lemma NextMadeAt(s: Sys, e: Step, id: nat, n: nat)
    requires Enabled(s, e) && MadeAt(s, id, n)
    ensures MadeAt(Next(s, e), id, n)
  {
    hide Direct;
  }

  lemma InvokeMadeAt(o: Obj, s: Sys, e: Step)
    requires Inv(o, s) && e.Invoke? && Enabled(s, e)
    ensures MadeAt(Next(s, e), s.nextId, |s.log|)
  {
    hide Direct, Replay, Genuine;
    assert forall t | t in s.threads :: PcOk(s, t, s.threads[t]);
    assert forall k | 0 <= k < |s.returned| :: ReturnedOk(s, s.returned[k]);
  }

  /**
   The order of the log respects real time: if step `i` is the return of a call and a later step `j` makes another
   one, then the first precedes the second in the log, if both took effect.
   */
  lemma RealTimeOrder(o: Obj, es: seq<Step>, s: Sys, i: nat, j: nat, b: nat)
    requires Reaches(Start(o), es, s) && i < j < |es| && es[i].Return? && es[j].Invoke?
    requires b < |s.returned| && s.returned[b].call.id == Invokes(es[..j])
    ensures Returns(es[..i]) < |s.returned|
    ensures var a := s.returned[Returns(es[..i])];
            a.ending.TookEffect? && s.returned[b].ending.TookEffect? ==> a.ending.at < s.returned[b].ending.at
  {
    hide Enabled, Next, Inv, ReturnedOk;
    var m := RunThrough(Start(o), es, s, j);
    RunGrows(Start(o), es[..j], m);
    var n := |m.log|;
    LaterCallStarts(o, es, s, j, m, b);
    assert es[..j][..i] == es[..i];
    EarlierCallEnds(o, es[..j], m, i);
    RunGrows(m, es[j..], s);
    Linearizable(o, es, s);
    var a := s.returned[Returns(es[..i])];
    assert a == m.returned[Returns(es[..i])] && a in s.returned;
    assert ReturnedOk(s, a) && ReturnedOk(s, s.returned[b]);
    OrderedBy(s, a, s.returned[b], n);
  }

  lemma OrderedBy(s: Sys, a: Returned, b: Returned, n: nat)
    requires ReturnedOk(s, a) && ReturnedOk(s, b) && a.finished <= n <= b.call.started
    ensures a.ending.TookEffect? && b.ending.TookEffect? ==> a.ending.at < b.ending.at
  {
  }

  lemma StartInv(o: Obj)
    ensures Inv(o, Start(o))
  {
  }

  lemma LaterCallStarts(o: Obj, es: seq<Step>, s: Sys, j: nat, m: Sys, b: nat)
    requires j < |es| && es[j].Invoke? && Reaches(Start(o), es[..j], m) && Reaches(m, es[j..], s)
    requires b < |s.returned| && s.returned[b].call.id == Invokes(es[..j])
    ensures s.returned[b].call.started == |m.log|
  {
    hide Enabled, Next, Inv;
    RunGrows(Start(o), es[..j], m);
    StartInv(o);
    RunInv(o, Start(o), es[..j], m);
    assert es[j..][0] == es[j];
    InvokeMadeAt(o, m, es[j]);
    MadeAtStays(Next(m, es[j]), es[j..][1..], s, m.nextId, |m.log|);
  }

  lemma EarlierCallEnds(o: Obj, es: seq<Step>, s: Sys, i: nat)
    requires i < |es| && es[i].Return? && Reaches(Start(o), es, s)
    ensures Returns(es[..i]) < |s.returned| && s.returned[Returns(es[..i])].finished <= |s.log|
  {
    hide Enabled;
    var m := RunThrough(Start(o), es, s, i);
    RunGrows(Start(o), es[..i], m);
    assert es[i..][0] == es[i];
    var m' := Next(m, es[i]);
    RunGrows(m', es[i..][1..], s);
    assert m'.returned[|m.returned|].finished == |m.log|;
  }

  /** Mutual exclusion: at most one caller is between taking and giving back the lock. */
  lemma MutualExclusion(o: Obj, es: seq<Step>, s: Sys, t: nat, u: nat)
    requires Reaches(Start(o), es, s) && t in s.threads && u in s.threads
    requires Holding(s.threads[t]) && Holding(s.threads[u])
    ensures t == u
  {
    assert Inv(o, Start(o));
    RunInv(o, Start(o), es, s);
    assert PcOk(s, t, s.threads[t]) && PcOk(s, u, s.threads[u]);
  }
}
