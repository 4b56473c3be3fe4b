/**
 The connection lifecycle as a state machine over whole runs of any number of clients: contexts,
 PCBs, their handlers and releases, and the local port counter all clients share.
 */
module Lifecycle {
  import opened Wrappers
  import opened Lwip

  const PICO_OK: int := 0
  const PICO_ERROR_IO: int := -6
  const PICO_ERROR_RESOURCE_IN_USE: int := -21

  /**
   A context: the PCB it holds, unless it was stopped, and the PCB its writer points to, which stays
   the one the context was made for.
   */
  datatype Ctx = Ctx(pcb: Option<nat>, tx: nat)

  type CtxView = Option<Ctx>

  /** What one client sees: its context, all PCBs ever allocated, and the shared port counter. */
  datatype Slice = Slice(ctx: CtxView, pcbs: seq<PcbView>, localPort: nat)

  predicate SliceOk(s: Slice) {
    s.ctx.Some? ==> s.ctx.value.tx < |s.pcbs| && (s.ctx.value.pcb.Some? ==> s.ctx.value.pcb.value < |s.pcbs|)
  }

  /** The 16-bit counter after it has been used once. */
  function NextPort(port: nat): nat {
    if port == 0 then 0 else (port + 1) % 0x10000
  }

  /** A PCB as `_ts_connect` leaves it: given the port, and taken over by a context. */
  function Allocated(port: nat, err: int): PcbView {
    NEW_PCB.(handlers := ATTACHED, connected := err == ERR_OK, port := port)
  }

  /** `_ts_connect`, given whether lwIP has a PCB to spare and what tcp_connect answers. */
  function Connect(s: Slice, available: bool, err: int): (Slice, int) {
    if s.ctx.Some? then (s, PICO_ERROR_RESOURCE_IN_USE)
    else if !available then (s, PICO_ERROR_IO)
    else
      var s1 := s.(pcbs := s.pcbs + [Allocated(s.localPort, err)], localPort := NextPort(s.localPort));
      if err != ERR_OK then (s1, err)
      else (s1.(ctx := Some(Ctx(Some(|s.pcbs|), |s.pcbs|))), PICO_OK)
  }

  /** abort of a PCB: handlers are detached first, then it is released once. */
  function Aborted(p: PcbView): PcbView {
    Used(p).(handlers := DETACHED, ends := p.ends + [AbortCall(DETACHED)], releases := p.releases + 1)
  }

  /** close of a PCB, given what tcp_close answers: if it fails, tcp_abort follows. */
  function Released(p: PcbView, closeErr: int): PcbView {
    Used(p).(handlers := DETACHED, releases := p.releases + 1,
             ends := p.ends + [CloseCall(closeErr, DETACHED)]
                     + if closeErr == ERR_OK then [] else [AbortCall(DETACHED)])
  }

  /** `stop`, given what tcp_close answers: the context stays, without its PCB. */
  function Stop(s: Slice, closeErr: int): (Slice, bool)
    requires SliceOk(s)
  {
    if s.ctx.None? || s.ctx.value.pcb.None? then (s, true)
    else
      var i := s.ctx.value.pcb.value;
      (s.(ctx := Some(Ctx(None, s.ctx.value.tx)), pcbs := s.pcbs[i := Released(s.pcbs[i], closeErr)]),
       closeErr == ERR_OK)
  }

  function Shutdown(s: Slice, closeErr: int): (Slice, bool)
    requires SliceOk(s)
  {
    (Stop(s, closeErr).0.(ctx := None), Stop(s, closeErr).1)
  }

  /** An access through the context's PCB pointer: a status, or a read that acknowledges bytes. */
  function Access(s: Slice): Slice
    requires SliceOk(s)
  {
    if s.ctx.None? || s.ctx.value.pcb.None? then s
    else
      var i := s.ctx.value.pcb.value;
      s.(pcbs := s.pcbs[i := Used(s.pcbs[i])])
  }

  /** An access through the writer's own pointer: a non-empty write, or a question for the free space. */
  function WriterAccess(s: Slice): Slice
    requires SliceOk(s)
  {
    if s.ctx.None? then s
    else
      var i := s.ctx.value.tx;
      s.(pcbs := s.pcbs[i := Used(s.pcbs[i])])
  }

  /** lwIP gives up the PCB the context holds; the context keeps its pointer. */
  function GivenUp(s: Slice): Slice
    requires SliceOk(s)
  {
    if s.ctx.None? || s.ctx.value.pcb.None? then s
    else
      var i := s.ctx.value.pcb.value;
      s.(pcbs := s.pcbs[i := s.pcbs[i].(freed := true)])
  }

  // ---------------------------------------------------------------- all clients together

  datatype World = World(clients: map<nat, CtxView>, pcbs: seq<PcbView>, localPort: nat)

  datatype Event =
    | ConnectE(c: nat, available: bool, err: int)
    | StopE(c: nat, closeErr: int)
    | ShutdownE(c: nat, closeErr: int)
      /** The application asks for the status, reads, which takes so many calls of tcp_recved, or writes. */
    | StatusE(c: nat)
    | ReadE(c: nat, acks: nat)
    | WriteE(c: nat, size: nat)
      /** The application asks the writer how much it can send. */
    | AdviseE(c: nat)
      /** lwIP gives the PCB of a client up and reports an error; the context keeps its pointer. */
    | ErrorE(c: nat)
      /** The client object is destroyed and recreated: its context goes, the PCB is not closed. */
    | DestroyE(c: nat)
    | SetPortE(port: nat)

  function CtxOf(w: World, c: nat): CtxView {
    if c in w.clients then w.clients[c] else None
  }

  function SliceOf(w: World, c: nat): Slice {
    Slice(CtxOf(w, c), w.pcbs, w.localPort)
  }

  function Put(w: World, c: nat, s: Slice): World {
    World(w.clients[c := s.ctx], s.pcbs, s.localPort)
  }

  /** The PCB a client's context holds, if any. */
  function Holds(w: World, c: nat): Option<nat> {
    if CtxOf(w, c).Some? then CtxOf(w, c).value.pcb else None
  }

  ghost predicate Wf(w: World) {
    forall c :: SliceOk(SliceOf(w, c))
  }

  /** What an event does to the client it concerns. */
  function Local(s: Slice, e: Event): Slice
    requires SliceOk(s)
  {
    match e
    case ConnectE(_, available, err) => Connect(s, available, err).0
    case StopE(_, closeErr) => Stop(s, closeErr).0
    case ShutdownE(_, closeErr) => Shutdown(s, closeErr).0
    case StatusE(_) => Access(s)
    case ReadE(_, acks) => if acks > 0 then Access(s) else s
    case WriteE(_, size) => if size > 0 then WriterAccess(s) else s
    case AdviseE(_) => WriterAccess(s)
    case ErrorE(_) => GivenUp(s)
    case DestroyE(_) => s.(ctx := None)
    case SetPortE(port) => s.(localPort := port % 0x10000)
  }

  ghost function Step(w: World, e: Event): World
    requires Wf(w)
  {
    if e.SetPortE? then w.(localPort := e.port % 0x10000)
    else
      assert SliceOk(SliceOf(w, e.c));
      Put(w, e.c, Local(SliceOf(w, e.c), e))
  }

  /** The result of a connect attempt. */
  function ConnectResult(w: World, e: Event): int
    requires e.ConnectE?
  {
    Connect(SliceOf(w, e.c), e.available, e.err).1
  }

  /** What an event does to the contexts. */
  lemma StepCtx(w: World, e: Event, d: nat)
    requires Wf(w)
    ensures CtxOf(Step(w, e), d) ==
              if e.SetPortE? || d != e.c then CtxOf(w, d)
              else if e.ConnectE? && ConnectResult(w, e) == PICO_OK then Some(Ctx(Some(|w.pcbs|), |w.pcbs|))
              else if e.StopE? && CtxOf(w, d).Some? then Some(Ctx(None, CtxOf(w, d).value.tx))
              else if e.ShutdownE? || e.DestroyE? then None
              else CtxOf(w, d)
  {
    assert SliceOk(SliceOf(w, d));
  }

  /** `n` clients without context, no PCB and no port start. */
  ghost function NewWorld(n: nat): (w: World)
    ensures Blank(w) && Wf(w)
  {
    World(NoContexts(n), [], 0)
  }

  function NoContexts(n: nat): (m: map<nat, CtxView>)
    ensures forall c: nat :: (c in m <==> c < n) && (c in m ==> m[c] == None)
  {
    if n == 0 then map[] else NoContexts(n - 1)[n - 1 := None]
  }

  lemma StepWf(w: World, e: Event)
    requires Wf(w)
    ensures Wf(Step(w, e)) && |w.pcbs| <= |Step(w, e).pcbs|
  {
    var w' := Step(w, e);
    if !e.SetPortE? { assert SliceOk(SliceOf(w, e.c)); }
    forall c
      ensures SliceOk(SliceOf(w', c))
    {
      assert SliceOk(SliceOf(w, c));
      StepCtx(w, e, c);
    }
  }

  ghost function Run(w: World, es: seq<Event>): (r: World)
    requires Wf(w)
    ensures Wf(r)
    decreases |es|
  {
    if es == [] then w else (StepWf(w, es[0]); Run(Step(w, es[0]), es[1..]))
  }

  const START: World := World(map[], [], 0)

  /** No client has a context, and no PCB was allocated yet. */
  ghost predicate Blank(w: World) {
    w.pcbs == [] && forall c :: CtxOf(w, c) == None
  }

  // ---------------------------------------------------------------- PCBs over every run

  ghost predicate Held(w: World, i: nat) {
    exists c :: Holds(w, c) == Some(i)
  }

  /** One attempt to close, accepted, or refused and followed by one abort; callbacks were deregistered before. */
  predicate EndedOnce(ends: seq<Ending>) {
    ends != [] && ends[0].CloseCall? && CloseThenAbort(ends, ends[0].answer)
  }

  /**
   A held PCB is live with its handlers registered; a PCB that was connected and is no longer held was
   released exactly once, handlers first; a PCB whose connect failed is never released.
   */
  ghost predicate PcbOk(w: World, i: nat)
    requires i < |w.pcbs|
  {
    var p := w.pcbs[i];
    && !p.freed
    && (Held(w, i) ==> p.connected)
    && (if p.connected && !Held(w, i) then p.releases == 1 && EndedOnce(p.ends) && NoHandlers(p.handlers)
        else p.releases == 0 && p.ends == [] && AllHandlers(p.handlers))
  }

  /** The event is no lwIP error and no destruction that meets PCB `i` while a client holds it. */
  predicate Spares(w: World, e: Event, i: nat) {
    e.ErrorE? || e.DestroyE? ==> Holds(w, e.c) != Some(i)
  }

  ghost predicate SparedRun(w: World, es: seq<Event>, i: nat)
    requires Wf(w)
    decreases |es|
  {
    es == [] || (Spares(w, es[0], i) && (StepWf(w, es[0]); SparedRun(Step(w, es[0]), es[1..], i)))
  }

  /** The event is no lwIP error on a PCB that a client holds, and no destruction of a client while open. */
  predicate Harmless(w: World, e: Event) {
    e.ErrorE? || e.DestroyE? ==> Holds(w, e.c).None?
  }

  ghost predicate HarmlessRun(w: World, es: seq<Event>)
    requires Wf(w)
    decreases |es|
  {
    es == [] || (Harmless(w, es[0]) && (StepWf(w, es[0]); HarmlessRun(Step(w, es[0]), es[1..])))
  }

  ghost predicate Unshared(w: World) {
    forall c, d :: Holds(w, c).Some? && Holds(w, c) == Holds(w, d) ==> c == d
  }

  ghost predicate Inv(w: World) {
    Wf(w) && Unshared(w) && forall i | 0 <= i < |w.pcbs| :: PcbOk(w, i)
  }

  /** What an event does to the PCBs the clients hold. */
  lemma StepHolds(w: World, e: Event, d: nat)
    requires Wf(w)
    ensures Holds(Step(w, e), d) ==
              if e.SetPortE? || d != e.c then Holds(w, d)
              else if e.ConnectE? && ConnectResult(w, e) == PICO_OK then Some(|w.pcbs|)
              else if e.StopE? || e.ShutdownE? || e.DestroyE? then None
              else Holds(w, d)
  {
    StepCtx(w, e, d);
  }

  lemma StepUnshared(w: World, e: Event)
    requires Wf(w) && Unshared(w)
    ensures Unshared(Step(w, e))
  {
    var w' := Step(w, e);
    forall c, d | Holds(w', c).Some? && Holds(w', c) == Holds(w', d)
      ensures c == d
    {
      StepHolds(w, e, c);
      StepHolds(w, e, d);
      assert SliceOk(SliceOf(w, c)) && SliceOk(SliceOf(w, d));
    }
  }

  /** Which PCBs stay held: all but the one a stop or a shutdown releases. */
  lemma StepHeld(w: World, e: Event, i: nat)
    requires Wf(w) && Unshared(w) && Spares(w, e, i) && i < |w.pcbs|
    ensures Held(Step(w, e), i) <==> Held(w, i) && !((e.StopE? || e.ShutdownE?) && Holds(w, e.c) == Some(i))
  {
    var w' := Step(w, e);
    if Held(w', i) {
      var d :| Holds(w', d) == Some(i);
      StepHolds(w, e, d);
      assert Holds(w, d) == Some(i);
    }
    if Held(w, i) {
      var d :| Holds(w, d) == Some(i);
      StepHolds(w, e, d);
    }
  }

  lemma StepPcb(w: World, e: Event, i: nat)
    requires Wf(w) && Unshared(w) && i < |w.pcbs| && PcbOk(w, i) && Spares(w, e, i)
    ensures i < |Step(w, e).pcbs| && PcbOk(Step(w, e), i)
  {
    StepKeepsPcb(w, e, i);
    StepHeld(w, e, i);
    if !e.SetPortE? {
      assert SliceOk(SliceOf(w, e.c));
      if Holds(w, e.c) == Some(i) { assert Held(w, i); }
    }
  }

  /** Given up, or connected and no longer held by anybody without having been released. */
  ghost predicate Lost(w: World, i: nat)
    requires i < |w.pcbs|
  {
    w.pcbs[i].freed || (w.pcbs[i].connected && !Held(w, i) && w.pcbs[i].releases == 0)
  }

  /** An event that does not spare a PCB loses it. */
  lemma StepLoses(w: World, e: Event, i: nat)
    requires Wf(w) && Unshared(w) && i < |w.pcbs| && PcbOk(w, i) && !Spares(w, e, i)
    ensures i < |Step(w, e).pcbs| && Lost(Step(w, e), i)
  {
    StepKeepsPcb(w, e, i);
    assert Held(w, i) && SliceOk(SliceOf(w, e.c));
    if Held(Step(w, e), i) {
      var d :| Holds(Step(w, e), d) == Some(i);
      StepHolds(w, e, d);
    }
  }

  lemma StepLost(w: World, e: Event, i: nat)
    requires Wf(w) && i < |w.pcbs| && Lost(w, i)
    ensures i < |Step(w, e).pcbs| && Lost(Step(w, e), i)
  {
    StepKeepsPcb(w, e, i);
    if !e.SetPortE? { assert SliceOk(SliceOf(w, e.c)); }
    if !w.pcbs[i].freed {
      assert e.SetPortE? || Holds(w, e.c) != Some(i);
      if Held(Step(w, e), i) {
        var d :| Holds(Step(w, e), d) == Some(i);
        StepHolds(w, e, d);
      }
    }
  }

  lemma {:induction false} RunLost(w: World, es: seq<Event>, i: nat)
    requires Wf(w) && i < |w.pcbs| && Lost(w, i)
    ensures i < |Run(w, es).pcbs| && Lost(Run(w, es), i)
    decreases |es|
  {
    if es != [] {
      StepWf(w, es[0]);
      StepLost(w, es[0], i);
      RunLost(Step(w, es[0]), es[1..], i);
    }
  }

  /**
   One PCB over every run of all clients, errors and destructions included: it stays in order exactly if no
   lwIP error and no destruction meets it while a client holds it.
   */
  lemma {:induction false} RunPcbIff(w: World, es: seq<Event>, i: nat)
    requires Wf(w) && Unshared(w) && i < |w.pcbs| && PcbOk(w, i)
    ensures i < |Run(w, es).pcbs| && (PcbOk(Run(w, es), i) <==> SparedRun(w, es, i))
    ensures !SparedRun(w, es, i) ==> Lost(Run(w, es), i)
    decreases |es|
  {
    if es != [] {
      StepWf(w, es[0]);
      StepUnshared(w, es[0]);
      if Spares(w, es[0], i) {
        StepPcb(w, es[0], i);
        RunPcbIff(Step(w, es[0]), es[1..], i);
      } else {
        StepLoses(w, es[0], i);
        RunLost(Step(w, es[0]), es[1..], i);
      }
    }
  }

  lemma OnlyConnectAllocates(w: World, e: Event)
    requires Wf(w)
    ensures |w.pcbs| < |Step(w, e).pcbs| ==> e.ConnectE? && CtxOf(w, e.c) == None && e.available
  {
    if !e.SetPortE? { assert SliceOk(SliceOf(w, e.c)); }
  }

  lemma NewPcb(w: World, e: Event)
    requires Wf(w) && e.ConnectE? && CtxOf(w, e.c) == None && e.available
    ensures PcbOk(Step(w, e), |w.pcbs|) && |Step(w, e).pcbs| == |w.pcbs| + 1
  {
    var w' := Step(w, e);
    StepHolds(w, e, e.c);
    forall d | d != e.c || ConnectResult(w, e) != PICO_OK
      ensures Holds(w', d) != Some(|w.pcbs|)
    {
      StepHolds(w, e, d);
      assert SliceOk(SliceOf(w, d));
    }
  }

  lemma StepInv(w: World, e: Event)
    requires Inv(w) && Harmless(w, e)
    ensures Inv(Step(w, e))
  {
    StepWf(w, e);
    StepUnshared(w, e);
    forall i | 0 <= i < |Step(w, e).pcbs|
      ensures PcbOk(Step(w, e), i)
    {
      if i < |w.pcbs| {
        StepPcb(w, e, i);
      } else {
        OnlyConnectAllocates(w, e);
        NewPcb(w, e);
      }
    }
  }

  /**
   All PCBs over every run of all clients: they stay in order exactly if no lwIP error meets a PCB that a client
   holds and no client is destroyed while it holds one.
   */
  lemma {:induction false} RunInvIff(w: World, es: seq<Event>)
    requires Inv(w)
    ensures Inv(Run(w, es)) <==> HarmlessRun(w, es)
    decreases |es|
  {
    if es != [] {
      StepWf(w, es[0]);
      if Harmless(w, es[0]) {
        StepInv(w, es[0]);
        RunInvIff(Step(w, es[0]), es[1..]);
      } else {
        var i := Holds(w, es[0].c).value;
        assert SliceOk(SliceOf(w, es[0].c));
        StepLoses(w, es[0], i);
        RunLost(Step(w, es[0]), es[1..], i);
        assert !PcbOk(Run(w, es), i);
      }
    }
  }

  lemma BlankInv(w: World)
    requires Blank(w)
    ensures Inv(w)
  {
  }

  /** A PCB never changes hands: whoever holds it later held it before. */
  lemma {:induction false} HolderStable(w: World, es: seq<Event>, d: nat, i: nat)
    requires Wf(w) && i < |w.pcbs| && Holds(Run(w, es), d) == Some(i)
    ensures Holds(w, d) == Some(i)
    decreases |es|
  {
    if es != [] {
      StepWf(w, es[0]);
      HolderStable(Step(w, es[0]), es[1..], d, i);
      StepHolds(w, es[0], d);
    }
  }

  lemma {:induction false} RunKeepsPcbs(w: World, es: seq<Event>, i: nat)
    requires Wf(w) && i < |w.pcbs|
    ensures i < |Run(w, es).pcbs| && Run(w, es).pcbs[i].connected == w.pcbs[i].connected
    ensures Run(w, es).pcbs[i].port == w.pcbs[i].port
    decreases |es|
  {
    if es != [] {
      StepWf(w, es[0]);
      StepKeepsPcb(w, es[0], i);
      RunKeepsPcbs(Step(w, es[0]), es[1..], i);
    }
  }

  lemma StepKeepsPcb(w: World, e: Event, i: nat)
    requires Wf(w) && i < |w.pcbs|
    ensures i < |Step(w, e).pcbs| && Step(w, e).pcbs[i].connected == w.pcbs[i].connected
    ensures Step(w, e).pcbs[i].port == w.pcbs[i].port
  {
    if !e.SetPortE? { assert SliceOk(SliceOf(w, e.c)); }
  }

  /**
   A client's shutdown leaves the PCB it holds released exactly once, live until then and without handlers, whatever
   happened in between: stops of this client, everything other clients do, failed attempts. It does so exactly if no
   lwIP error met this PCB and this client was not destroyed while it held it.
   */
  lemma ShutdownReleasesOnceIff(w: World, c: nat, es: seq<Event>, closeErr: int)
    requires Inv(w) && Holds(w, c).Some?
    ensures var i := Holds(w, c).value;
            var w' := Step(Run(w, es), ShutdownE(c, closeErr));
            && i < |w'.pcbs| && CtxOf(w', c) == None
            && ((w'.pcbs[i].releases == 1 && EndedOnce(w'.pcbs[i].ends) && !w'.pcbs[i].freed
                 && NoHandlers(w'.pcbs[i].handlers)) <==> SparedRun(w, es, i))
  {
    var i := Holds(w, c).value;
    var w1 := Run(w, es);
    var e := ShutdownE(c, closeErr);
    var w' := Step(w1, e);
    assert SliceOk(SliceOf(w, c));
    assert PcbOk(w, i) && Held(w, i);
    RunPcbIff(w, es, i);
    RunKeepsPcbs(w, es, i);
    RunUnshared(w, es);
    StepKeepsPcb(w1, e, i);
    if Held(w', i) {
      var d :| Holds(w', d) == Some(i);
      StepHolds(w1, e, d);
      HolderStable(w, es, d, i);
    }
    if SparedRun(w, es, i) {
      StepPcb(w1, e, i);
    } else {
      StepLost(w1, e, i);
    }
  }

  lemma {:induction false} RunUnshared(w: World, es: seq<Event>)
    requires Wf(w) && Unshared(w)
    ensures Unshared(Run(w, es))
    decreases |es|
  {
    if es != [] {
      StepWf(w, es[0]);
      StepUnshared(w, es[0]);
      RunUnshared(Step(w, es[0]), es[1..]);
    }
  }

  // ---------------------------------------------------------------- how PCBs are ended, over every run

  /** A PCB that nobody ended, or that was ended once; a PCB that a client holds was not. */
  ghost predicate EndOk(w: World, i: nat)
    requires i < |w.pcbs|
  {
    var ends := w.pcbs[i].ends;
    (ends == [] || EndedOnce(ends)) && (Held(w, i) ==> ends == [])
  }

  lemma StepEnds(w: World, e: Event, i: nat)
    requires Wf(w) && Unshared(w) && i < |Step(w, e).pcbs| && forall j | 0 <= j < |w.pcbs| :: EndOk(w, j)
    ensures EndOk(Step(w, e), i)
  {
    var w' := Step(w, e);
    if !e.SetPortE? { assert SliceOk(SliceOf(w, e.c)); }
    if i < |w.pcbs| {
      assert EndOk(w, i);
      if !e.SetPortE? && Holds(w, e.c) == Some(i) { assert Held(w, i); }
      if Held(w', i) {
        var d :| Holds(w', d) == Some(i);
        StepHolds(w, e, d);
        assert Holds(w, d) == Some(i);
      }
    } else {
      OnlyConnectAllocates(w, e);
      NewPcb(w, e);
    }
  }

  lemma {:induction false} RunEnds(w: World, es: seq<Event>)
    requires Wf(w) && Unshared(w) && forall i | 0 <= i < |w.pcbs| :: EndOk(w, i)
    ensures forall i | 0 <= i < |Run(w, es).pcbs| :: EndOk(Run(w, es), i)
    decreases |es|
  {
    if es != [] {
      StepWf(w, es[0]);
      StepUnshared(w, es[0]);
      forall i | 0 <= i < |Step(w, es[0]).pcbs|
        ensures EndOk(Step(w, es[0]), i)
      {
        StepEnds(w, es[0], i);
      }
      RunEnds(Step(w, es[0]), es[1..]);
    }
  }

  /**
   In every run, errors and destructions included, tcp_close is called at most once for a PCB, tcp_abort only
   right after lwIP refused it, and so never for a PCB whose close lwIP accepted.
   */
  lemma AbortOnlyIfRefused(w: World, es: seq<Event>, i: nat)
    requires Blank(w) && Wf(w) && i < |Run(w, es).pcbs|
    ensures var ends := Run(w, es).pcbs[i].ends;
            && (forall k | 0 <= k < |ends| :: ends[k].CloseCall? <==> k == 0)
            && (forall k | 0 <= k < |ends| && ends[k].AbortCall? :: ends[0].answer != ERR_OK)
            && |ends| <= 2 && (|ends| == 1 ==> ends[0].answer == ERR_OK)
  {
    RunEnds(w, es);
    assert EndOk(Run(w, es), i);
  }

  // ---------------------------------------------------------------- one client over every run

  /** What the attempts to connect return. */
  lemma ConnectResultIs(w: World, c: nat, available: bool, err: int)
    ensures ConnectResult(w, ConnectE(c, available, err)) ==
            if CtxOf(w, c).Some? then PICO_ERROR_RESOURCE_IN_USE
            else if !available then PICO_ERROR_IO
            else if err == ERR_OK then PICO_OK
            else err
  {
  }

  /** Connecting an occupied client is refused and changes nothing. */
  lemma OccupiedRefused(w: World, e: Event)
    requires Wf(w) && e.ConnectE? && CtxOf(w, e.c).Some?
    ensures ConnectResult(w, e) == PICO_ERROR_RESOURCE_IN_USE && Step(w, e) == w
  {
    assert w.clients[e.c := w.clients[e.c]] == w.clients;
  }

  /** A failed attempt leaves the client free, so that the next one can succeed. */
  lemma FailureLeavesFree(w: World, e: Event, c: nat)
    requires Wf(w) && e.ConnectE? && e.c == c && CtxOf(w, c) == None && ConnectResult(w, e) != PICO_OK
    ensures CtxOf(Step(w, e), c) == None && ConnectResult(Step(w, e), ConnectE(c, true, ERR_OK)) == PICO_OK
  {
  }

  /** Ends a client's context: its shutdown, or the destruction of the client object. */
  predicate EndsContext(e: Event, c: nat) {
    (e.ShutdownE? || e.DestroyE?) && e.c == c
  }

  lemma {:induction false} ContextStays(w: World, c: nat, es: seq<Event>)
    requires Wf(w) && CtxOf(w, c).Some? && forall e | e in es :: !EndsContext(e, c)
    ensures CtxOf(Run(w, es), c).Some?
    decreases |es|
  {
    if es != [] {
      assert es[0] in es;
      StepWf(w, es[0]);
      ContextStays(Step(w, es[0]), c, es[1..]);
    }
  }

  /** Between two successful connects of a client lies the end of its context: stop is not enough. */
  lemma ConnectsSeparated(w: World, first: Event, es: seq<Event>, second: Event)
    requires Wf(w) && first.ConnectE? && second.ConnectE? && first.c == second.c
    requires ConnectResult(w, first) == PICO_OK
    ensures Wf(Step(w, first))
    ensures ConnectResult(Run(Step(w, first), es), second) == PICO_OK ==> exists e | e in es :: EndsContext(e, first.c)
  {
    StepWf(w, first);
    if forall e | e in es :: !EndsContext(e, first.c) {
      ContextStays(Step(w, first), first.c, es);
    }
  }

  /** No connect of client `c` succeeds during the run. */
  ghost predicate NoSuccess(w: World, es: seq<Event>, c: nat)
    requires Wf(w)
    decreases |es|
  {
    es == [] ||
    (!(es[0].ConnectE? && es[0].c == c && ConnectResult(w, es[0]) == PICO_OK)
     && (StepWf(w, es[0]); NoSuccess(Step(w, es[0]), es[1..], c)))
  }

  /** A client without PCB gets one by a successful connect only. */
  lemma {:induction false} HoldsNothing(w: World, es: seq<Event>, c: nat)
    requires Wf(w) && Holds(w, c).None? && NoSuccess(w, es, c)
    ensures Holds(Run(w, es), c).None?
    decreases |es|
  {
    if es != [] {
      StepWf(w, es[0]);
      StepHolds(w, es[0], c);
      HoldsNothing(Step(w, es[0]), es[1..], c);
    }
  }

  // ---------------------------------------------------------------- local ports

  /** The port given to the n-th PCB after the counter stood at `start`. */
  function PortOf(start: nat, n: nat): nat {
    if 0 < start && start + n <= 0xFFFF then start + n else 0
  }

  /**
   Ports over every run of all clients, the start not being reset: PCBs get the ports p, p+1, ...,
   65535 in the order of their allocation and none after that. Refused attempts allocate no PCB and
   use no port; attempts that fail after the allocation do.
   */
  lemma {:induction false} PortsInOrder(w: World, es: seq<Event>, i: nat)
    requires Wf(w) && w.localPort <= 0xFFFF && forall e | e in es :: !e.SetPortE?
    requires |w.pcbs| <= i < |Run(w, es).pcbs|
    ensures Run(w, es).pcbs[i].port == PortOf(w.localPort, i - |w.pcbs|)
    decreases |es|
  {
    if es != [] {
      assert es[0] in es;
      var w1 := Step(w, es[0]);
      StepWf(w, es[0]);
      StepPort(w, es[0]);
      if i < |w1.pcbs| {
        RunKeepsPcbs(w1, es[1..], i);
      } else {
        PortsInOrder(w1, es[1..], i);
      }
    }
  }

  lemma StepPort(w: World, e: Event)
    requires Wf(w) && !e.SetPortE? && w.localPort <= 0xFFFF
    ensures var w' := Step(w, e);
            && |w'.pcbs| - |w.pcbs| in {0, 1}
            && (|w'.pcbs| > |w.pcbs| <==> e.ConnectE? && CtxOf(w, e.c) == None && e.available)
            && w'.localPort == PortOf(w.localPort, |w'.pcbs| - |w.pcbs|)
            && (|w'.pcbs| > |w.pcbs| ==> w'.pcbs[|w.pcbs|].port == w.localPort)
  {
    assert SliceOk(SliceOf(w, e.c));
  }

  /** No explicit port is ever given to two PCBs. */
  lemma PortsDistinct(w: World, es: seq<Event>, i: nat, j: nat)
    requires Wf(w) && w.localPort <= 0xFFFF && forall e | e in es :: !e.SetPortE?
    requires |w.pcbs| <= i < j < |Run(w, es).pcbs|
    ensures Run(w, es).pcbs[i].port != Run(w, es).pcbs[j].port || Run(w, es).pcbs[i].port == 0
  {
    PortsInOrder(w, es, i);
    PortsInOrder(w, es, j);
  }

  // ---------------------------------------------------------------- pointers to dead PCBs

  /** Over every run: a context's pointers agree, are its own, and a stopped context's PCB was released. */
  ghost predicate PointersOk(w: World, c: nat)
    requires Wf(w)
  {
    assert SliceOk(SliceOf(w, c));
    CtxOf(w, c).Some? ==>
      var ctx := CtxOf(w, c).value;
      && (ctx.pcb.Some? ==> ctx.pcb.value == ctx.tx)
      && w.pcbs[ctx.tx].releases == (if ctx.pcb.Some? then 0 else 1)
  }

  ghost predicate OwnWriters(w: World) {
    forall c, d :: CtxOf(w, c).Some? && CtxOf(w, d).Some? && CtxOf(w, c).value.tx == CtxOf(w, d).value.tx ==> c == d
  }

  ghost predicate PtrInv(w: World) {
    Wf(w) && OwnWriters(w) && forall c :: PointersOk(w, c)
  }

  lemma StepPtrInv(w: World, e: Event)
    requires PtrInv(w)
    ensures PtrInv(Step(w, e))
  {
    var w' := Step(w, e);
    StepWf(w, e);
    forall c, d | CtxOf(w', c).Some? && CtxOf(w', d).Some? && CtxOf(w', c).value.tx == CtxOf(w', d).value.tx
      ensures c == d
    {
      StepCtx(w, e, c);
      StepCtx(w, e, d);
      assert SliceOk(SliceOf(w, c)) && SliceOk(SliceOf(w, d));
    }
    forall c
      ensures PointersOk(w', c)
    {
      StepPointers(w, e, c);
    }
  }

  lemma StepPointers(w: World, e: Event, c: nat)
    requires PtrInv(w) && Wf(Step(w, e))
    ensures PointersOk(Step(w, e), c)
  {
    StepCtx(w, e, c);
    assert SliceOk(SliceOf(w, c)) && PointersOk(w, c);
    if !e.SetPortE? { assert SliceOk(SliceOf(w, e.c)) && PointersOk(w, e.c); }
  }

  /** No pointer to a PCB was followed after the PCB was released or given up. */
  ghost predicate NeverMisused(w: World) {
    forall i | 0 <= i < |w.pcbs| :: !w.pcbs[i].misused
  }

  /** The client holds a PCB that lwIP has given up. */
  ghost predicate Failed(w: World, c: nat)
    requires Wf(w)
  {
    assert SliceOk(SliceOf(w, c));
    Holds(w, c).Some? && w.pcbs[Holds(w, c).value].freed
  }

  /** The client was stopped: only its writer still points to the PCB. */
  predicate Stopped(w: World, c: nat) {
    CtxOf(w, c).Some? && Holds(w, c).None?
  }

  /** The events in which the library follows a PCB pointer of client `c`. */
  predicate Uses(e: Event, c: nat) {
    UsesWriter(e, c) || ((e.StopE? || e.ShutdownE? || e.StatusE? || (e.ReadE? && e.acks > 0)) && e.c == c)
  }

  /** ... through the writer's own pointer. */
  predicate UsesWriter(e: Event, c: nat) {
    ((e.WriteE? && e.size > 0) || e.AdviseE?) && e.c == c
  }

  lemma StepMisuse(w: World, e: Event)
    requires PtrInv(w)
    ensures NeverMisused(Step(w, e)) <==>
            NeverMisused(w) &&
            (!e.SetPortE? ==> !(Uses(e, e.c) && Failed(w, e.c)) && !(UsesWriter(e, e.c) && Stopped(w, e.c)))
  {
    var w' := Step(w, e);
    if !e.SetPortE? {
      assert SliceOk(SliceOf(w, e.c)) && PointersOk(w, e.c);
      if e.ConnectE? {
        assert forall j | 0 <= j < |w.pcbs| :: w'.pcbs[j] == w.pcbs[j];
        assert |w'.pcbs| > |w.pcbs| ==> !w'.pcbs[|w.pcbs|].misused;
      } else if CtxOf(w, e.c).Some? {
        var i := CtxOf(w, e.c).value.tx;
        assert forall j | 0 <= j < |w.pcbs| && j != i :: w'.pcbs[j] == w.pcbs[j];
        assert w'.pcbs[i].misused <==>
               w.pcbs[i].misused || (Uses(e, e.c) && Failed(w, e.c)) || (UsesWriter(e, e.c) && Stopped(w, e.c));
      }
    }
  }

  // ---------------------------------------------------------------- exactly which runs misuse a PCB

  /** Client `c` is not used any more, unless it is destroyed first. */
  predicate IdleUntilDestroyed(es: seq<Event>, c: nat) {
    es == [] || es[0] == DestroyE(c) || (!Uses(es[0], c) && IdleUntilDestroyed(es[1..], c))
  }

  /** The writer of client `c` is not used any more, unless the context ends first. */
  predicate SilentUntilEnded(es: seq<Event>, c: nat) {
    es == [] || EndsContext(es[0], c) || (!UsesWriter(es[0], c) && SilentUntilEnded(es[1..], c))
  }

  /** An event that leaves a client with a pointer to a dead PCB is followed as it has to be. */
  predicate Heeded(w: World, e: Event, rest: seq<Event>) {
    && (e.ErrorE? && Holds(w, e.c).Some? ==> IdleUntilDestroyed(rest, e.c))
    && (e.StopE? && Holds(w, e.c).Some? ==> SilentUntilEnded(rest, e.c))
  }

  /**
   After every lwIP error on a client that holds a PCB, the client is not stopped, shut down, asked for
   its status, read or written, and its writer not asked for space, before it is destroyed; and after every
   stop that released a PCB, the client's writer is not used before the context ends.
   */
  ghost predicate Orderly(w: World, es: seq<Event>)
    requires Wf(w)
    decreases |es|
  {
    es == [] || (Heeded(w, es[0], es[1..]) && (StepWf(w, es[0]); Orderly(Step(w, es[0]), es[1..])))
  }

  /** What the state of a client asks of the events to come. */
  ghost predicate Owes(w: World, es: seq<Event>, c: nat)
    requires Wf(w)
  {
    (Failed(w, c) ==> IdleUntilDestroyed(es, c)) && (Stopped(w, c) ==> SilentUntilEnded(es, c))
  }

  lemma StepOwes(w: World, es: seq<Event>, c: nat)
    requires PtrInv(w) && es != []
    requires var e := es[0];
             !e.SetPortE? ==> !(Uses(e, e.c) && Failed(w, e.c)) && !(UsesWriter(e, e.c) && Stopped(w, e.c))
    ensures Wf(Step(w, es[0]))
    ensures Owes(Step(w, es[0]), es[1..], c) <==>
            Owes(w, es, c) && (!es[0].SetPortE? && es[0].c == c ==> Heeded(w, es[0], es[1..]))
  {
    var e := es[0];
    var w' := Step(w, e);
    StepWf(w, e);
    StepCtx(w, e, c);
    assert SliceOk(SliceOf(w, c)) && PointersOk(w, c);
    if e.SetPortE? {
    } else if e.c == c {
    } else {
      assert SliceOk(SliceOf(w, e.c)) && PointersOk(w, e.c);
      assert Failed(w', c) <==> Failed(w, c);
    }
  }

  lemma {:induction false} MisuseFrom(w: World, es: seq<Event>)
    requires PtrInv(w)
    ensures NeverMisused(Run(w, es)) <==> NeverMisused(w) && Orderly(w, es) && forall c :: Owes(w, es, c)
    decreases |es|
  {
    if es == [] {
    } else {
      var e, w1 := es[0], Step(w, es[0]);
      StepPtrInv(w, e);
      StepMisuse(w, e);
      MisuseFrom(w1, es[1..]);
      if !e.SetPortE? && ((Uses(e, e.c) && Failed(w, e.c)) || (UsesWriter(e, e.c) && Stopped(w, e.c))) {
        assert !Owes(w, es, e.c);
      } else {
        forall c
          ensures Owes(w1, es[1..], c) <==> Owes(w, es, c) && (!e.SetPortE? && e.c == c ==> Heeded(w, e, es[1..]))
        {
          StepOwes(w, es, c);
        }
        if !e.SetPortE? { assert Owes(w1, es[1..], e.c) <==> Owes(w, es, e.c) && Heeded(w, e, es[1..]); }
      }
    }
  }

  /**
   Over all runs from the start, with errors and destructions: no pointer to a dead PCB is ever followed
   if and only if the events are orderly.
   */
  lemma MisuseIff(w: World, es: seq<Event>)
    requires Blank(w)
    ensures Wf(w) && (NeverMisused(Run(w, es)) <==> Orderly(w, es))
  {
    assert PtrInv(w);
    MisuseFrom(w, es);
  }

  lemma {:induction false} IdleEndsNothing(es: seq<Event>, c: nat)
    requires IdleUntilDestroyed(es, c) && forall e | e in es :: e != DestroyE(c)
    ensures forall e | e in es :: !EndsContext(e, c)
    decreases |es|
  {
    if es != [] {
      assert es[0] in es && forall e | e in es[1..] :: e in es;
      if es[0] != DestroyE(c) { IdleEndsNothing(es[1..], c); }
      assert forall e | e in es :: e == es[0] || e in es[1..];
    }
  }

  lemma {:induction false} RunPtrInv(w: World, es: seq<Event>)
    requires PtrInv(w)
    ensures PtrInv(Run(w, es))
    decreases |es|
  {
    if es != [] {
      StepPtrInv(w, es[0]);
      RunPtrInv(Step(w, es[0]), es[1..]);
    }
  }

  /** A client that holds a PCB which lwIP has given up keeps its context as long as no dead PCB is used. */
  lemma FailedStays(w: World, c: nat, es: seq<Event>)
    requires PtrInv(w) && Failed(w, c) && NeverMisused(Run(w, es)) && forall e | e in es :: e != DestroyE(c)
    ensures CtxOf(Run(w, es), c).Some?
  {
    MisuseFrom(w, es);
    assert Owes(w, es, c);
    IdleEndsNothing(es, c);
    ContextStays(w, c, es);
  }

  /**
   After an lwIP error on the PCB it holds the client is lost: in every run, and every continuation that follows no
   pointer to a dead PCB and does not destroy the client object, its context stays and no connect succeeds again.
   */
  lemma ErrorEndsClient(w0: World, before: seq<Event>, c: nat, after: seq<Event>, available: bool, err: int)
    requires Blank(w0) && Wf(w0) && Holds(Run(w0, before), c).Some?
    requires forall e | e in after :: e != DestroyE(c)
    ensures var w := Step(Run(w0, before), ErrorE(c));
            Wf(w) && (NeverMisused(Run(w, after)) ==>
                        && CtxOf(Run(w, after), c).Some?
                        && ConnectResult(Run(w, after), ConnectE(c, available, err)) == PICO_ERROR_RESOURCE_IN_USE)
  {
    assert PtrInv(w0);
    RunPtrInv(w0, before);
    var w1 := Run(w0, before);
    var w := Step(w1, ErrorE(c));
    StepPtrInv(w1, ErrorE(c));
    assert SliceOk(SliceOf(w1, c));
    StepCtx(w1, ErrorE(c), c);
    assert Failed(w, c);
    if NeverMisused(Run(w, after)) {
      FailedStays(w, c, after);
    }
  }

  /** The error handler keeps the PCB pointer, so that a stop after an lwIP error follows it. */
  lemma ErrorThenStopMisuses()
    ensures Wf(START) && !NeverMisused(Run(START, [ConnectE(0, true, ERR_OK), ErrorE(0), StopE(0, ERR_OK)]))
  {
    var es := [ConnectE(0, true, ERR_OK), ErrorE(0), StopE(0, ERR_OK)];
    MisuseIff(START, es);
    StepWf(START, es[0]);
    assert es[1..] == [es[1], es[2]] && es[1..][1..] == [es[2]];
    assert !Heeded(Step(START, es[0]), es[1], [es[2]]);
  }
}
